/** Sending queued responses: iovecs are gathered, the socket takes some prefix of
them, and what was taken is struck from the responses. */
module Transmit {
  import opened Basics

  /** Memory as the socket reads it. */
  type Mem = nat -> Byte

  /** MC_RESP_IOVCOUNT and IOV_MAX. */
  const RESP_IOVS: nat := 4
  const IOV_MAX: nat := 1024

  datatype Iov = Iov(base: nat, len: nat)

  /** A response. If chunkedIov is not 0, that iov stands for an item in chunks,
  and its length says how much of the item is still to be sent. */
  datatype Resp = Resp(iovs: seq<Iov>, tosend: int, skip: bool, chunkedIov: nat, chunkedTotal: int, chunks: seq<Iov>)

  function Read(mem: Mem, v: Iov): (r: seq<Byte>)
    ensures |r| == v.len
  {
    seq(v.len, i requires 0 <= i => mem(v.base + i))
  }

  lemma ReadTail(mem: Mem, v: Iov, n: nat)
    requires n <= v.len
    ensures Read(mem, Iov(v.base + n, v.len - n)) == Read(mem, v)[n..]
    ensures Read(mem, Iov(v.base, n)) == Read(mem, v)[..n]
  {}

  /** The bytes that some iovecs name, one after the other. */
  function All(mem: Mem, vs: seq<Iov>): seq<Byte> {
    if vs == [] then [] else Read(mem, vs[0]) + All(mem, vs[1..])
  }

  lemma {:induction false} AllSnoc(mem: Mem, vs: seq<Iov>, v: Iov)
    ensures All(mem, vs + [v]) == All(mem, vs) + Read(mem, v)
  {
    if vs == [] {
      assert [v][1..] == [];
    } else {
      assert (vs + [v])[1..] == vs[1..] + [v];
      AllSnoc(mem, vs[1..], v);
    }
  }

  function Sum(vs: seq<Iov>): nat {
    if vs == [] then 0 else vs[0].len + Sum(vs[1..])
  }

  predicate IsChunked(r: Resp, x: nat) { r.chunkedIov != 0 && x == r.chunkedIov }

  /** What is left to send is counted right, and an item in chunks is long enough. */
  ghost predicate RespOk(mem: Mem, r: Resp) {
    && |r.iovs| <= RESP_IOVS && r.tosend == Sum(r.iovs)
    && (r.chunkedIov != 0 ==> (
          r.chunkedIov < |r.iovs| && r.iovs[r.chunkedIov].len <= r.chunkedTotal <= |All(mem, r.chunks)|))
  }

  /** What is left to send of iov x. */
  function Left(mem: Mem, r: Resp, x: nat): (b: seq<Byte>)
    requires x < |r.iovs| && (IsChunked(r, x) ==> r.iovs[x].len <= r.chunkedTotal <= |All(mem, r.chunks)|)
    ensures |b| == r.iovs[x].len
  {
    if IsChunked(r, x) then All(mem, r.chunks)[r.chunkedTotal - r.iovs[x].len..r.chunkedTotal]
    else Read(mem, r.iovs[x])
  }

  function LeftFrom(mem: Mem, r: Resp, x: nat): (b: seq<Byte>)
    requires RespOk(mem, r) && x <= |r.iovs|
    ensures |b| == Sum(r.iovs[x..])
    decreases |r.iovs| - x
  {
    if x == |r.iovs| then [] else Left(mem, r, x) + LeftFrom(mem, r, x + 1)
  }

  /** What is left to send of a response. */
  function Bytes(mem: Mem, r: Resp): seq<Byte>
    requires RespOk(mem, r)
  {
    if r.skip then [] else LeftFrom(mem, r, 0)
  }

  ghost predicate QueueOk(mem: Mem, q: seq<Resp>) {
    forall i :: 0 <= i < |q| ==> RespOk(mem, q[i])
  }

  /** What is left to send altogether. */
  function Stream(mem: Mem, q: seq<Resp>): seq<Byte>
    requires QueueOk(mem, q)
  {
    if q == [] then [] else Bytes(mem, q[0]) + Stream(mem, q[1..])
  }

  lemma {:induction false} StreamConcat(mem: Mem, a: seq<Resp>, b: seq<Resp>)
    requires QueueOk(mem, a) && QueueOk(mem, b)
    ensures QueueOk(mem, a + b) && Stream(mem, a + b) == Stream(mem, a) + Stream(mem, b)
  {
    if a == [] {
      assert a + b == b;
    } else {
      assert (a + b)[1..] == a[1..] + b;
      StreamConcat(mem, a[1..], b);
    }
  }

  /** What is left of an item in chunks from chunk c on, `done` bytes into it. */
  function Todo(mem: Mem, chunks: seq<Iov>, done: nat, todo: int): seq<Byte>
    requires todo > 0 ==> done + todo <= |All(mem, chunks)|
  {
    if todo <= 0 then [] else All(mem, chunks)[done..done + todo]
  }

  lemma ChunkSkipped(mem: Mem, chunks: seq<Iov>, done: nat, todo: int)
    requires chunks != [] && todo > 0 && done + todo <= |All(mem, chunks)| && chunks[0].len <= done
    ensures done - chunks[0].len + todo <= |All(mem, chunks[1..])|
    ensures Todo(mem, chunks, done, todo) == Todo(mem, chunks[1..], done - chunks[0].len, todo)
  {}

  /** The next stretch of a chunk goes out, up to what is still to do. */
  lemma ChunkTaken(mem: Mem, chunks: seq<Iov>, done: nat, todo: int)
    requires chunks != [] && todo > 0 && done + todo <= |All(mem, chunks)| && done < chunks[0].len
    ensures var n := chunks[0].len - done; var out := if n > todo then todo else n;
      && (todo - n > 0 ==> todo - n <= |All(mem, chunks[1..])|)
      && Read(mem, Iov(chunks[0].base + done, out)) + Todo(mem, chunks[1..], 0, todo - n) ==
          Todo(mem, chunks, done, todo)
  {
    var n := chunks[0].len - done;
    var out := if n > todo then todo else n;
    ReadTail(mem, chunks[0], done);
    ReadTail(mem, Iov(chunks[0].base + done, n), out);
    var first, rest := Read(mem, chunks[0]), All(mem, chunks[1..]);
    assert All(mem, chunks) == first + rest;
    hide All, Read;
    if n >= todo {
      assert (first + rest)[done..done + todo] == first[done..][..todo];
      assert first[done..][..todo] + [] == first[done..][..todo];
    } else {
      assert first[done..][..n] == first[done..];
      assert (first + rest)[done..done + todo] == first[done..] + rest[..todo - n];
      assert rest[0..todo - n] == rest[..todo - n];
    }
  }

  /** Either everything went out, or there was no room left for all of it. */
  ghost predicate Gathered(mem: Mem, out: seq<Iov>, all: seq<Byte>) {
    |out| <= IOV_MAX - 1 && (All(mem, out) == all || (|out| == IOV_MAX - 1 && All(mem, out) <= all))
  }

  /** The loop over the chunks in _transmit_pre. */
  method GatherChunks(ghost mem: Mem, r: Resp, out0: seq<Iov>) returns (out: seq<Iov>)
    requires RespOk(mem, r) && r.chunkedIov != 0 && |out0| < IOV_MAX - 1
    ensures Gathered(mem, out, All(mem, out0) + Left(mem, r, r.chunkedIov)) && |out0| <= |out|
  {
    hide All, Todo, Left, Read;
    StartTodo(mem, r);
    out := out0;
    var done := r.chunkedTotal - r.iovs[r.chunkedIov].len;
    var todo: int := r.iovs[r.chunkedIov].len;
    var c := 0;
    ghost var goal := All(mem, out0) + Left(mem, r, r.chunkedIov);
    assert r.chunks[0..] == r.chunks;
    while c < |r.chunks| && todo > 0 && |out| < IOV_MAX - 1
      invariant 0 <= c <= |r.chunks| && done >= 0 && |out0| <= |out| <= IOV_MAX - 1
      invariant todo > 0 ==> done + todo <= |All(mem, r.chunks[c..])|
      invariant All(mem, out) + Todo(mem, r.chunks[c..], done, todo) == goal
      decreases |r.chunks| - c
    {
      var ch := r.chunks[c];
      var skip := 0;
      assert r.chunks[c..][1..] == r.chunks[c + 1..];
      if ch.len == 0 {
        ChunkSkipped(mem, r.chunks[c..], done, todo);
        c := c + 1;
        continue;
      }
      if done >= ch.len {
        ChunkSkipped(mem, r.chunks[c..], done, todo);
        done := done - ch.len;
        c := c + 1;
        continue;
      } else if done > 0 {
        skip := done;
      }
      ChunkTaken(mem, r.chunks[c..], done, todo);
      done := 0;
      ghost var before := All(mem, out);
      var v := Iov(ch.base + skip, if ch.len - skip > todo then todo else ch.len - skip);
      AllSnoc(mem, out, v);
      out := out + [v];
      assert All(mem, out) == before + Read(mem, v);
      assert (before + Read(mem, v)) + Todo(mem, r.chunks[c + 1..], 0, todo - (ch.len - skip)) ==
        before + (Read(mem, v) + Todo(mem, r.chunks[c + 1..], 0, todo - (ch.len - skip)));
      todo := todo - (ch.len - skip);
      c := c + 1;
    }
    DoneTodo(mem, r.chunks[c..], done, todo);
  }

  lemma StartTodo(mem: Mem, r: Resp)
    requires RespOk(mem, r) && r.chunkedIov != 0
    ensures var len := r.iovs[r.chunkedIov].len;
      len <= r.chunkedTotal <= |All(mem, r.chunks)| &&
      Left(mem, r, r.chunkedIov) == Todo(mem, r.chunks, r.chunkedTotal - len, len)
  {}

  lemma DoneTodo(mem: Mem, chunks: seq<Iov>, done: nat, todo: int)
    requires todo > 0 ==> done + todo <= |All(mem, chunks)|
    ensures todo <= 0 || chunks == [] ==> Todo(mem, chunks, done, todo) == []
  {}

  /** The loop over the iovs of a response in _transmit_pre. */
  method GatherResp(ghost mem: Mem, r: Resp, out0: seq<Iov>) returns (out: seq<Iov>)
    requires RespOk(mem, r) && r.chunkedIov != 0 && |out0| + |r.iovs| < IOV_MAX - 1
    ensures Gathered(mem, out, All(mem, out0) + LeftFrom(mem, r, 0)) && |out0| < |out|
  {
    out := out0;
    ghost var goal := All(mem, out0) + LeftFrom(mem, r, 0);
    var x := 0;
    while x < |r.iovs|
      invariant 0 <= x <= |r.iovs| && |out0| <= |out| < IOV_MAX - 1 && (x > 0 ==> |out0| < |out|)
      invariant All(mem, out) + LeftFrom(mem, r, x) == goal
    {
      ghost var before := All(mem, out);
      ghost var rest := LeftFrom(mem, r, x + 1);
      assert before + (Left(mem, r, x) + rest) == (before + Left(mem, r, x)) + rest;
      if x == r.chunkedIov {
        out := GatherChunks(mem, r, out);
      } else {
        AllSnoc(mem, out, r.iovs[x]);
        out := out + [r.iovs[x]];
      }
      if |out| >= IOV_MAX - 1 {
        assert All(mem, out) <= goal;
        return;
      }
      x := x + 1;
    }
  }

  lemma {:induction false} SumUpdate(vs: seq<Iov>, x: nat, v: Iov)
    requires x < |vs|
    ensures Sum(vs[x := v]) == Sum(vs) - vs[x].len + v.len
  {
    if x == 0 {
      assert vs[0 := v][1..] == vs[1..];
    } else {
      assert vs[x := v][1..] == vs[1..][x - 1 := v];
      SumUpdate(vs[1..], x - 1, v);
    }
  }

  /** Changes before position x do not matter from x on. */
  lemma {:induction false} LeftFromSame(mem: Mem, r: Resp, r': Resp, x: nat)
    requires RespOk(mem, r) && RespOk(mem, r') && |r'.iovs| == |r.iovs| && x <= |r.iovs| && r'.iovs[x..] == r.iovs[x..]
    requires r'.chunkedIov == r.chunkedIov && r'.chunkedTotal == r.chunkedTotal && r'.chunks == r.chunks
    ensures LeftFrom(mem, r', x) == LeftFrom(mem, r, x)
    decreases |r.iovs| - x
  {
    if x < |r.iovs| {
      assert r'.iovs[x] == r'.iovs[x..][0] == r.iovs[x..][0] == r.iovs[x];
      assert r'.iovs[x + 1..] == r'.iovs[x..][1..] == r.iovs[x..][1..] == r.iovs[x + 1..];
      LeftFromSame(mem, r, r', x + 1);
    }
  }

  /** Iovs that were sent in full have nothing left. */
  lemma {:induction false} SentPrefix(mem: Mem, r: Resp, x: nat, y: nat)
    requires RespOk(mem, r) && x <= y <= |r.iovs| && forall k :: x <= k < y ==> r.iovs[k].len == 0
    ensures LeftFrom(mem, r, x) == LeftFrom(mem, r, y)
    decreases y - x
  {
    if x < y { SentPrefix(mem, r, x + 1, y); }
  }

  /** The iov at x after `res` more bytes of it went out. */
  function Struck(r: Resp, x: nat, res: nat): Resp
    requires x < |r.iovs| && res <= r.iovs[x].len
  {
    var v := r.iovs[x];
    r.(tosend := r.tosend - res,
       iovs := r.iovs[x := Iov(if IsChunked(r, x) || res == v.len then v.base else v.base + res, v.len - res)])
  }

  lemma StruckOk(mem: Mem, r: Resp, x: nat, res: nat)
    requires RespOk(mem, r) && x < |r.iovs| && res <= r.iovs[x].len
    ensures RespOk(mem, Struck(r, x, res))
    ensures LeftFrom(mem, Struck(r, x, res), x) == LeftFrom(mem, r, x)[res..]
    ensures LeftFrom(mem, Struck(r, x, res), x + 1) == LeftFrom(mem, r, x + 1)
  {
    var r' := Struck(r, x, res);
    StruckRespOk(mem, r, x, res);
    assert r'.iovs[x + 1..] == r.iovs[x + 1..];
    LeftFromSame(mem, r, r', x + 1);
    StruckLeft(mem, r, x, res);
    LeftStep(mem, r, x);
    LeftStep(mem, r', x);
    hide RespOk, LeftFrom, Left, Struck;
    CutFront(Left(mem, r, x), LeftFrom(mem, r, x + 1), res);
  }

  lemma StruckRespOk(mem: Mem, r: Resp, x: nat, res: nat)
    requires RespOk(mem, r) && x < |r.iovs| && res <= r.iovs[x].len
    ensures RespOk(mem, Struck(r, x, res))
  {
    hide All, Sum;
    SumUpdate(r.iovs, x, Struck(r, x, res).iovs[x]);
  }

  lemma StruckLeft(mem: Mem, r: Resp, x: nat, res: nat)
    requires RespOk(mem, r) && x < |r.iovs| && res <= r.iovs[x].len && RespOk(mem, Struck(r, x, res))
    ensures Left(mem, Struck(r, x, res), x) == Left(mem, r, x)[res..]
  {
    if !IsChunked(r, x) && res < r.iovs[x].len {
      ReadTail(mem, r.iovs[x], res);
    }
  }

  lemma SumTail(vs: seq<Iov>, x: nat)
    requires x < |vs|
    ensures Sum(vs[x..]) == vs[x].len + Sum(vs[x + 1..])
  {
    assert vs[x..][1..] == vs[x + 1..];
  }

  /** An iov that went out in full. */
  method ZeroIov(r0: Resp, x: nat) returns (r: Resp)
    requires x < |r0.iovs|
    ensures r == Struck(r0, x, r0.iovs[x].len)
    ensures r.iovs[x + 1..] == r0.iovs[x + 1..]
  {
    var v := r0.iovs[x];
    r := r0.(tosend := r0.tosend - v.len);
    v := v.(len := 0);
    r := r.(iovs := r.iovs[x := v]);
  }

  /** An iov of which `res` bytes went out. */
  method AdvanceIov(r0: Resp, x: nat, res: nat) returns (r: Resp)
    requires x < |r0.iovs| && res < r0.iovs[x].len
    ensures r == Struck(r0, x, res)
  {
    var v := r0.iovs[x];
    if r0.chunkedIov == 0 || x != r0.chunkedIov {
      v := v.(base := v.base + res);
    }
    v := v.(len := v.len - res);
    r := r0.(iovs := r0.iovs[x := v], tosend := r0.tosend - res);
  }

  /** The part of _transmit_post for a response that is not sent in full. */
  method Strike(ghost mem: Mem, r0: Resp, res0: nat) returns (r: Resp, res: nat)
    requires RespOk(mem, r0) && res0 < r0.tosend
    ensures RespOk(mem, r) && r.skip == r0.skip && res == 0 && r.tosend == r0.tosend - res0
    ensures LeftFrom(mem, r, 0) == LeftFrom(mem, r0, 0)[res0..]
  {
    hide RespOk, LeftFrom, All, Left;
    r, res := r0, res0;
    var x := 0;
    assert r.iovs[0..] == r.iovs;
    StrikeStart(mem, r);
    ghost var goal := LeftFrom(mem, r, 0)[res..];
    while x < |r.iovs|
      invariant 0 <= x <= |r.iovs| == |r0.iovs| && RespOk(mem, r) && r.skip == r0.skip
      invariant r.tosend == r0.tosend - (res0 - res) && 0 <= res < r.tosend == Sum(r.iovs[x..])
      invariant forall k :: 0 <= k < x ==> r.iovs[k].len == 0
      invariant |LeftFrom(mem, r, x)| == r.tosend && LeftFrom(mem, r, x)[res..] == goal
      decreases |r0.iovs| - x
    {
      var v := r.iovs[x];
      SumTail(r.iovs, x);
      LeftStep(mem, r, x);
      if res >= v.len {
        StruckOk(mem, r, x, v.len);
        r := ZeroIov(r, x);
        res := res - v.len;
      } else {
        StruckOk(mem, r, x, res);
        r := AdvanceIov(r, x, res);
        SentPrefix(mem, r, 0, x);
        res := 0;
        return;
      }
      x := x + 1;
    }
  }

  lemma StrikeStart(mem: Mem, r: Resp)
    requires RespOk(mem, r)
    ensures r.tosend == Sum(r.iovs[0..]) == |LeftFrom(mem, r, 0)|
  {
    assert r.iovs[0..] == r.iovs;
  }

  lemma LeftStep(mem: Mem, r: Resp, x: nat)
    requires RespOk(mem, r) && x < |r.iovs|
    ensures IsChunked(r, x) ==> r.iovs[x].len <= r.chunkedTotal <= |All(mem, r.chunks)|
    ensures LeftFrom(mem, r, x) == Left(mem, r, x) + LeftFrom(mem, r, x + 1)
    ensures |LeftFrom(mem, r, x)| == r.iovs[x].len + |LeftFrom(mem, r, x + 1)|
  {}

  datatype Outcome = Complete | Incomplete | SoftError

  lemma QueueTail(mem: Mem, q: seq<Resp>)
    requires QueueOk(mem, q) && q != []
    ensures RespOk(mem, q[0]) && QueueOk(mem, q[1..]) && Stream(mem, q) == Bytes(mem, q[0]) + Stream(mem, q[1..])
  {}

  lemma StreamOne(mem: Mem, r: Resp)
    requires RespOk(mem, r)
    ensures QueueOk(mem, [r]) && Stream(mem, [r]) == Bytes(mem, r)
  {
    assert [r][1..] == [];
  }

  lemma QueueAt(mem: Mem, q: seq<Resp>, i: nat)
    requires QueueOk(mem, q) && i < |q|
    ensures RespOk(mem, q[i]) && QueueOk(mem, q[..i]) && QueueOk(mem, q[i..]) && QueueOk(mem, q[..i + 1])
    ensures Stream(mem, q[..i + 1]) == Stream(mem, q[..i]) + Bytes(mem, q[i])
    ensures Stream(mem, q) == Stream(mem, q[..i]) + Stream(mem, q[i..])
    ensures Stream(mem, q[..i + 1]) <= Stream(mem, q)
  {
    hide RespOk, Stream, LeftFrom, QueueOk;
    QueueParts(mem, q, i);
    StreamConcat(mem, q[..i], [q[i]]);
    StreamConcat(mem, q[..i], q[i..]);
    StreamConcat(mem, q[..i + 1], q[i + 1..]);
    StreamOne(mem, q[i]);
  }

  lemma QueueParts(mem: Mem, q: seq<Resp>, i: nat)
    requires QueueOk(mem, q) && i < |q|
    ensures RespOk(mem, q[i]) && QueueOk(mem, q[..i]) && QueueOk(mem, q[i..])
    ensures QueueOk(mem, q[..i + 1]) && QueueOk(mem, q[i + 1..]) && QueueOk(mem, [q[i]])
    ensures q[..i + 1] == q[..i] + [q[i]] && q == q[..i] + q[i..] && q == q[..i + 1] + q[i + 1..]
  {
    hide RespOk;
  }

  lemma {:induction false} AllConcat(mem: Mem, a: seq<Iov>, b: seq<Iov>)
    ensures All(mem, a + b) == All(mem, a) + All(mem, b)
  {
    if a == [] {
      assert a + b == b;
    } else {
      assert (a + b)[1..] == a[1..] + b;
      AllConcat(mem, a[1..], b);
    }
  }

  /** A response without chunks is sent as its iovs say. */
  lemma {:induction false} PlainBytes(mem: Mem, r: Resp, x: nat)
    requires RespOk(mem, r) && r.chunkedIov == 0 && x <= |r.iovs|
    ensures LeftFrom(mem, r, x) == All(mem, r.iovs[x..])
    decreases |r.iovs| - x
  {
    if x < |r.iovs| {
      assert r.iovs[x..][1..] == r.iovs[x + 1..];
      PlainBytes(mem, r, x + 1);
    }
  }

  /** What remains after the first k. */
  predicate Dropped(q: seq<Resp>, k: nat, rest: seq<Resp>) { k <= |q| && rest == q[k..] }

  class Conn {
    ghost const mem: Mem
    /** The chain from resp_head. */
    var queue: seq<Resp>
    /** What the socket took, and everything that was ever queued to be sent. */
    ghost var sent: seq<Byte>
    ghost var queued: seq<Byte>

    /** Nothing is lost or sent twice: what was taken and what is left are together
    what was queued. */
    ghost predicate Valid()
      reads this
    {
      QueueOk(mem, queue) && sent + Stream(mem, queue) == queued
    }

    ghost constructor (m: Mem)
      ensures Valid() && mem == m && queue == [] && sent == [] && queued == []
    {
      mem := m;
      queue, sent, queued := [], [], [];
    }

    /** A finished response joins the chain. */
    method Queue(r: Resp)
      requires Valid() && RespOk(mem, r)
      modifies this
      ensures Valid() && queue == old(queue) + [r]
      ensures sent == old(sent) && queued == old(queued) + Bytes(mem, r)
    {
      hide RespOk, Stream, LeftFrom, Bytes;
      StreamOne(mem, r);
      StreamConcat(mem, queue, [r]);
      Appended(sent, Stream(mem, queue), Bytes(mem, r));
      queue := queue + [r];
      queued := queued + Bytes(mem, r);
    }

    /** _transmit_pre, for TRANSMIT_ALL_RESP. */
    method TransmitPre() returns (out: seq<Iov>)
      requires Valid()
      ensures |out| <= IOV_MAX - 1 && All(mem, out) <= Stream(mem, queue)
      ensures out == [] ==> Stream(mem, queue) == []
    {
      hide RespOk, All, Stream, LeftFrom;
      out := [];
      var i := 0;
      EmptyStream(mem);
      assert queue[..0] == [];
      while i < |queue| && |out| + |queue[i].iovs| < IOV_MAX - 1
        invariant 0 <= i <= |queue| && |out| <= IOV_MAX - 1 && QueueOk(mem, queue[..i])
        invariant All(mem, out) == Stream(mem, queue[..i]) ||
          (|out| == IOV_MAX - 1 && All(mem, out) <= Stream(mem, queue))
      {
        QueueAt(mem, queue, i);
        var r := queue[i];
        BytesIs(mem, r);
        if r.skip {
          i := i + 1;
          continue;
        }
        ghost var before := out;
        if r.chunkedIov != 0 {
          out := GatherResp(mem, r, out);
        } else {
          AllConcat(mem, out, r.iovs);
          out := out + r.iovs;
        }
        i := i + 1;
      }
      if i < |queue| {
        QueueAt(mem, queue, i);
        IovsKnown(mem, queue[i]);
      } else {
        assert queue[..i] == queue;
      }
    }

    /** _transmit_post: exactly `res` bytes are struck from the front. */
    method TransmitPost(res0: nat)
      requires QueueOk(mem, queue) && res0 <= |Stream(mem, queue)|
      modifies this`queue
      ensures QueueOk(mem, queue) && Stream(mem, queue) == Stream(mem, old(queue))[res0..]
      ensures res0 == |Stream(mem, old(queue))| ==> queue == []
      ensures queue == [] || exists k :: Dropped(old(queue), k, queue[1..])
    {
      hide RespOk, Stream, LeftFrom;
      ghost var goal := Stream(mem, queue)[res0..];
      ghost var k := 0;
      var res := res0;
      while queue != []
        invariant QueueOk(mem, queue) && 0 <= res <= |Stream(mem, queue)| && Stream(mem, queue)[res..] == goal
        invariant Dropped(old(queue), k, queue)
        decreases |queue|
      {
        var r := queue[0];
        QueueTail(mem, queue);
        BytesIs(mem, r);
        if r.skip {
          queue := queue[1..];
          k := k + 1;
          continue;
        }
        if res >= r.tosend {
          res := res - r.tosend;
          queue := queue[1..];
          k := k + 1;
          continue;
        }
        var r', res' := Strike(mem, r, res);
        StrikeHead(mem, r, r', queue[1..], res);
        if r'.tosend == 0 {
          assert false;
        } else {
          queue := [r'] + queue[1..];
          assert Dropped(old(queue), k + 1, queue[1..]);
          break;
        }
      }
      if queue == [] { EmptyStream(mem); }
    }

    /** transmit: `taken` is what sendmsg makes of the iovs, a number of bytes up to
    all of them, or -1 for EAGAIN. */
    method Transmit(taken: int) returns (r: Outcome)
      requires Valid() && taken >= -1
      modifies this
      ensures Valid() && queued == old(queued) && old(sent) <= sent
      ensures r.Complete? ==> queue == [] && sent == queued
      ensures r.Incomplete? ==> queue != []
      ensures r.SoftError? ==> queue == old(queue) && sent == old(sent)
      ensures |sent| <= |old(sent)| + (if taken < 0 then 0 else taken)
    {
      hide RespOk, Stream, LeftFrom, All;
      ghost var stream := Stream(mem, queue);
      var out := TransmitPre();
      if out == [] {
        TransmitPost(0);
        EmptyStream(mem);
        assert stream[0..] == stream;
        return Complete;
      }
      if taken == -1 {
        return SoftError;
      }
      var total := CountBytes(mem, out);
      var res := if taken < total then taken else total;
      TransmitPost(res);
      Handed(sent, stream, res);
      sent := sent + stream[..res];
      if queue != [] {
        return Incomplete;
      }
      EmptyStream(mem);
      return Complete;
    }
  }

  lemma Appended(sent: seq<Byte>, stream: seq<Byte>, more: seq<Byte>)
    ensures sent + (stream + more) == (sent + stream) + more
  {}

  /** Some bytes of the stream count as sent now. */
  lemma Handed(sent: seq<Byte>, stream: seq<Byte>, res: nat)
    requires res <= |stream|
    ensures (sent + stream[..res]) + stream[res..] == sent + stream
    ensures (sent + stream[..res]) + [] == sent + stream[..res]
  {}

  /** How many bytes the iovs hold. */
  method CountBytes(ghost mem: Mem, vs: seq<Iov>) returns (n: nat)
    ensures n == |All(mem, vs)|
  {
    n := 0;
    var i := 0;
    assert vs[..0] == [];
    while i < |vs|
      invariant 0 <= i <= |vs| && n == |All(mem, vs[..i])|
    {
      assert vs[..i + 1] == vs[..i] + [vs[i]];
      AllSnoc(mem, vs[..i], vs[i]);
      n := n + vs[i].len;
      i := i + 1;
    }
    assert vs[..i] == vs;
  }

  lemma EmptyStream(mem: Mem)
    ensures QueueOk(mem, []) && Stream(mem, []) == [] && All(mem, []) == []
  {}

  lemma BytesIs(mem: Mem, r: Resp)
    requires RespOk(mem, r)
    ensures |r.iovs| <= RESP_IOVS && (r.chunkedIov != 0 ==> r.chunkedIov < |r.iovs|)
    ensures Bytes(mem, r) == if r.skip then [] else LeftFrom(mem, r, 0)
    ensures |LeftFrom(mem, r, 0)| == r.tosend
    ensures r.chunkedIov == 0 ==> LeftFrom(mem, r, 0) == All(mem, r.iovs)
  {
    assert r.iovs[0..] == r.iovs;
    if r.chunkedIov == 0 { PlainBytes(mem, r, 0); }
  }

  lemma IovsKnown(mem: Mem, r: Resp)
    requires RespOk(mem, r)
    ensures |r.iovs| <= RESP_IOVS
  {}

  lemma StrikeHead(mem: Mem, r: Resp, r': Resp, rest: seq<Resp>, res: nat)
    requires RespOk(mem, r) && RespOk(mem, r') && QueueOk(mem, rest) && !r.skip && !r'.skip && res < r.tosend
    requires LeftFrom(mem, r', 0) == LeftFrom(mem, r, 0)[res..]
    ensures QueueOk(mem, [r'] + rest)
    ensures Stream(mem, [r'] + rest) == (Bytes(mem, r) + Stream(mem, rest))[res..]
  {
    hide RespOk, LeftFrom, Stream;
    StrikeStart(mem, r);
    StreamCons(mem, r', rest);
    CutFront(LeftFrom(mem, r, 0), Stream(mem, rest), res);
  }

  lemma StreamCons(mem: Mem, r: Resp, rest: seq<Resp>)
    requires RespOk(mem, r) && QueueOk(mem, rest)
    ensures QueueOk(mem, [r] + rest) && Stream(mem, [r] + rest) == Bytes(mem, r) + Stream(mem, rest)
  {
    hide RespOk;
    assert ([r] + rest)[0] == r && ([r] + rest)[1..] == rest;
  }

  lemma CutFront(a: seq<Byte>, b: seq<Byte>, n: nat)
    requires n <= |a|
    ensures (a + b)[n..] == a[n..] + b
  {}

  /** resp_add_iov. */
  method AddIov(ghost mem: Mem, r0: Resp, v: Iov) returns (r: Resp)
    requires RespOk(mem, r0) && |r0.iovs| < RESP_IOVS
    ensures RespOk(mem, r) && r.skip == r0.skip && r.iovs == r0.iovs + [v]
    ensures LeftFrom(mem, r, 0) == LeftFrom(mem, r0, 0) + Read(mem, v)
  {
    r := r0.(iovs := r0.iovs + [v]);
    r := r.(tosend := r0.tosend + v.len);
    SumSnoc(r0.iovs, v);
    AddedLeft(mem, r0, v, 0);
  }

  lemma {:induction false} SumSnoc(vs: seq<Iov>, v: Iov)
    ensures Sum(vs + [v]) == Sum(vs) + v.len
  {
    if vs == [] {
      assert [v][1..] == [];
    } else {
      assert (vs + [v])[1..] == vs[1..] + [v];
      SumSnoc(vs[1..], v);
    }
  }

  lemma {:induction false} AddedLeft(mem: Mem, r: Resp, v: Iov, x: nat)
    requires RespOk(mem, r) && |r.iovs| < RESP_IOVS && x <= |r.iovs|
    requires RespOk(mem, r.(iovs := r.iovs + [v], tosend := r.tosend + v.len))
    ensures LeftFrom(mem, r.(iovs := r.iovs + [v], tosend := r.tosend + v.len), x) == LeftFrom(mem, r, x) + Read(mem, v)
    decreases |r.iovs| - x
  {
    var r' := r.(iovs := r.iovs + [v], tosend := r.tosend + v.len);
    LeftStep(mem, r', x);
    if x < |r.iovs| {
      LeftStep(mem, r, x);
      assert r'.iovs[x] == r.iovs[x] && Left(mem, r', x) == Left(mem, r, x);
      AddedLeft(mem, r, v, x + 1);
      hide RespOk, LeftFrom, Left, Read;
      Appended(Left(mem, r, x), LeftFrom(mem, r, x + 1), Read(mem, v));
    }
  }

  /** resp_add_chunked_iov: all of the item is still to be sent. */
  method AddChunkedIov(ghost mem: Mem, r0: Resp, item: nat, chunks: seq<Iov>, len: nat) returns (r: Resp)
    requires RespOk(mem, r0) && 1 <= |r0.iovs| < RESP_IOVS && r0.chunkedIov == 0 && len <= |All(mem, chunks)|
    ensures RespOk(mem, r) && r.skip == r0.skip && r.iovs == r0.iovs + [Iov(item, len)]
    ensures LeftFrom(mem, r, 0) == LeftFrom(mem, r0, 0) + All(mem, chunks)[..len]
  {
    r := r0.(chunkedIov := |r0.iovs|, chunkedTotal := len, chunks := chunks);
    r := r.(iovs := r.iovs + [Iov(item, len)]);
    r := r.(tosend := r.tosend + len);
    SumSnoc(r0.iovs, Iov(item, len));
    AddedChunks(mem, r0, r, 0);
  }

  lemma {:induction false} AddedChunks(mem: Mem, r: Resp, r': Resp, x: nat)
    requires RespOk(mem, r) && RespOk(mem, r') && r.chunkedIov == 0 && r.iovs != [] && x <= |r.iovs|
    requires |r'.iovs| == |r.iovs| + 1
    requires r'.iovs[..|r.iovs|] == r.iovs && r'.chunkedIov == |r.iovs| && r'.iovs[|r.iovs|].len == r'.chunkedTotal
    ensures LeftFrom(mem, r', x) == LeftFrom(mem, r, x) + All(mem, r'.chunks)[..r'.chunkedTotal]
    decreases |r.iovs| - x
  {
    if x < |r.iovs| {
      assert r'.iovs[x] == r.iovs[x];
      AddedChunks(mem, r, r', x + 1);
    }
  }
}

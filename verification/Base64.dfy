/** base64.c: section 4 of RFC 4648 without line feeds, and a decoder that may
write over what it reads. */
module Base64 {
  import opened Basics

  type Six = x: int | 0 <= x < 64

  /** base64_table. */
  function Symbol(v: Six): (c: Byte)
    ensures c != '=' as int
  {
    if v < 26 then v + 'A' as int
    else if v < 52 then v - 26 + 'a' as int
    else if v < 62 then v - 52 + '0' as int
    else if v == 62 then '+' as int else '/' as int
  }

  const NONE: int := 0x80
  const PAD: Byte := '=' as int

  /** dtable: 0x80 for bytes that are skipped, and 0 for the padding sign. */
  function Value(c: Byte): (v: int)
    ensures v == NONE || 0 <= v < 64
  {
    if 'A' as int <= c <= 'Z' as int then c - 'A' as int
    else if 'a' as int <= c <= 'z' as int then c - 'a' as int + 26
    else if '0' as int <= c <= '9' as int then c - '0' as int + 52
    else if c == '+' as int then 62
    else if c == '/' as int then 63
    else if c == PAD then 0
    else NONE
  }

  lemma SymbolValue(v: Six)
    ensures Value(Symbol(v)) == v
  {}

  /** Four symbols for three bytes. */
  function Quad(a: Byte, b: Byte, c: Byte): (q: seq<Byte>)
    ensures |q| == 4
  {
    [Symbol(a / 4), Symbol(a % 4 * 16 + b / 16), Symbol(b % 16 * 4 + c / 64), Symbol(c % 64)]
  }

  function Encode(s: seq<Byte>): (r: seq<Byte>)
    ensures |r| == (|s| + 2) / 3 * 4
  {
    if s == [] then []
    else if |s| == 1 then Quad(s[0], 0, 0)[..2] + [PAD, PAD]
    else if |s| == 2 then Quad(s[0], s[1], 0)[..3] + [PAD]
    else Quad(s[0], s[1], s[2]) + Encode(s[3..])
  }

  /** Three bytes from the values of four symbols. */
  function Triple(q: seq<Byte>): (t: seq<Byte>)
    requires |q| == 4 && forall i :: 0 <= i < 4 ==> Value(q[i]) != NONE
    ensures |t| == 3
  {
    var v0, v1, v2, v3 := Value(q[0]), Value(q[1]), Value(q[2]), Value(q[3]);
    [(v0 * 4 + v1 / 16) % 256, (v1 * 16 % 256 + v2 / 4) % 256, (v2 * 64 % 256 + v3) % 256]
  }

  function Pads(q: seq<Byte>): nat {
    if q == [] then 0 else (if q[0] == PAD then 1 else 0) + Pads(q[1..])
  }

  /** The bytes that are symbols or padding. */
  function Clean(s: seq<Byte>): (c: seq<Byte>)
    ensures forall i :: 0 <= i < |c| ==> Value(c[i]) != NONE
    ensures |c| <= |s|
  {
    if s == [] then [] else (if Value(s[0]) != NONE then [s[0]] else []) + Clean(s[1..])
  }

  datatype Decoded = Bad | Bytes(bytes: seq<Byte>)

  /** What blocks of four stand for: padding ends the data, and a block with more
  than two padding signs is bad. */
  function Blocks(c: seq<Byte>): Decoded
    requires forall i :: 0 <= i < |c| ==> Value(c[i]) != NONE
  {
    if |c| < 4 then Bytes([])
    else
      var t := Triple(c[..4]);
      var pads := Pads(c[..4]);
      if pads > 2 then Bad
      else if pads > 0 then Bytes(t[..3 - pads])
      else match Blocks(c[4..])
        case Bad => Bad
        case Bytes(rest) => Bytes(t + rest)
  }

  /** What the caller gets of it. */
  function AsBytes(d: Decoded): seq<Byte> {
    match d case Bad => [] case Bytes(b) => b
  }

  /** The decoded bytes; none when the source has no whole number of blocks, when
  they might not fit, or when a block is bad. */
  function Decode(s: seq<Byte>, room: nat): seq<Byte> {
    var c := Clean(s);
    if c == [] || |c| % 4 != 0 || |c| / 4 * 3 > room then []
    else AsBytes(Blocks(c))
  }

  /** Cutting 24 bits into sixes and putting them together again. */
  lemma Sixes(a: Byte, b: Byte, c: Byte)
    ensures var v0, v1, v2, v3 := a / 4, a % 4 * 16 + b / 16, b % 16 * 4 + c / 64, c % 64;
      && v0 < 64 && v1 < 64 && v2 < 64
      && (v0 * 4 + v1 / 16) % 256 == a && (v1 * 16 % 256 + v2 / 4) % 256 == b && (v2 * 64 % 256 + v3) % 256 == c
  {
    SixA(a, b);
    SixB(a, b, c);
    SixC(b, c);
  }

  lemma SixA(a: Byte, b: Byte)
    ensures (a / 4 * 4 + (a % 4 * 16 + b / 16) / 16) % 256 == a && a % 4 * 16 + b / 16 < 64
  {
    assert (a % 4 * 16 + b / 16) / 16 == a % 4;
  }

  lemma SixB(a: Byte, b: Byte, c: Byte)
    ensures ((a % 4 * 16 + b / 16) * 16 % 256 + (b % 16 * 4 + c / 64) / 4) % 256 == b
  {
    assert (a % 4 * 16 + b / 16) * 16 == 256 * (a % 4) + b / 16 * 16;
    assert (a % 4 * 16 + b / 16) * 16 % 256 == b / 16 * 16;
    assert (b % 16 * 4 + c / 64) / 4 == b % 16;
  }

  lemma SixC(b: Byte, c: Byte)
    ensures ((b % 16 * 4 + c / 64) * 64 % 256 + c % 64) % 256 == c && b % 16 * 4 + c / 64 < 64
  {
    assert (b % 16 * 4 + c / 64) * 64 == 256 * (b % 16) + c / 64 * 64;
    assert (b % 16 * 4 + c / 64) * 64 % 256 == c / 64 * 64;
  }

  lemma QuadTriple(a: Byte, b: Byte, c: Byte)
    ensures var q := Quad(a, b, c);
      (forall i :: 0 <= i < 4 ==> Value(q[i]) != NONE) && Triple(q) == [a, b, c] && Pads(q) == 0
  {
    hide Symbol, Value;
    Sixes(a, b, c);
    SymbolValue(a / 4);
    SymbolValue(a % 4 * 16 + b / 16);
    SymbolValue(b % 16 * 4 + c / 64);
    SymbolValue(c % 64);
    PadsOf(Quad(a, b, c));
  }

  function Pad(c: Byte): nat { if c == PAD then 1 else 0 }

  lemma PadsOf(q: seq<Byte>)
    requires |q| == 4
    ensures Pads(q) == Pad(q[0]) + Pad(q[1]) + Pad(q[2]) + Pad(q[3])
  {
    var q1, q2, q3 := q[1..], q[2..], q[3..];
    assert q1[1..] == q2 && q2[1..] == q3 && q3[1..] == [];
    assert Pads(q3) == Pad(q[3]) && Pads(q2) == Pad(q[2]) + Pads(q3) && Pads(q1) == Pad(q[1]) + Pads(q2);
  }

  /** The padded last block. */
  lemma LastOne(a: Byte)
    ensures var q := Quad(a, 0, 0)[..2] + [PAD, PAD];
      (forall i :: 0 <= i < 4 ==> Value(q[i]) != NONE) && Pads(q) == 2 && Triple(q)[..1] == [a]
  {
    PadValue();
    hide Symbol, Value;
    Sixes(a, 0, 0);
    SymbolValue(a / 4);
    SymbolValue(a % 4 * 16);
    PadsOf(Quad(a, 0, 0)[..2] + [PAD, PAD]);
  }

  lemma LastTwo(a: Byte, b: Byte)
    ensures var q := Quad(a, b, 0)[..3] + [PAD];
      (forall i :: 0 <= i < 4 ==> Value(q[i]) != NONE) && Pads(q) == 1 && Triple(q)[..2] == [a, b]
  {
    PadValue();
    hide Symbol, Value;
    Sixes(a, b, 0);
    SymbolValue(a / 4);
    SymbolValue(a % 4 * 16 + b / 16);
    SymbolValue(b % 16 * 4);
    PadsOf(Quad(a, b, 0)[..3] + [PAD]);
  }

  lemma PadValue()
    ensures Value(PAD) == 0
  {}

  lemma {:induction false} CleanAll(s: seq<Byte>)
    requires forall i :: 0 <= i < |s| ==> Value(s[i]) != NONE
    ensures Clean(s) == s
  {
    if s != [] {
      CleanAll(s[1..]);
      assert s == [s[0]] + s[1..];
    }
  }

  ghost predicate AllSymbols(c: seq<Byte>) {
    forall i :: 0 <= i < |c| ==> Value(c[i]) != NONE
  }

  lemma BlocksFirst(q: seq<Byte>, c: seq<Byte>)
    requires |q| == 4 && AllSymbols(q) && AllSymbols(c)
    ensures AllSymbols(q + c)
    ensures Pads(q) == 0 && Blocks(c).Bytes? ==> Blocks(q + c) == Bytes(Triple(q) + Blocks(c).bytes)
    ensures 0 < Pads(q) < 3 ==> Blocks(q + c) == Bytes(Triple(q)[..3 - Pads(q)])
  {
    assert (q + c)[..4] == q && (q + c)[4..] == c;
  }

  lemma {:induction false} EncodeClean(s: seq<Byte>)
    ensures AllSymbols(Encode(s)) && Blocks(Encode(s)) == Bytes(s)
  {
    if s == [] {
    } else if |s| < 3 {
      LastClean(s);
    } else {
      hide Quad, Triple, Blocks, Encode, Pads;
      QuadTriple(s[0], s[1], s[2]);
      EncodeClean(s[3..]);
      EncodeStep(s);
      BlocksFirst(Quad(s[0], s[1], s[2]), Encode(s[3..]));
      assert s == [s[0], s[1], s[2]] + s[3..];
    }
  }

  lemma LastClean(s: seq<Byte>)
    requires 1 <= |s| < 3
    ensures AllSymbols(Encode(s)) && Blocks(Encode(s)) == Bytes(s)
  {
    hide Quad, Triple, Blocks, Pads, Value;
    if |s| == 1 { LastOne(s[0]); } else { LastTwo(s[0], s[1]); }
    BlocksFirst(Encode(s), []);
    assert Encode(s) + [] == Encode(s);
    assert s == if |s| == 1 then [s[0]] else [s[0], s[1]];
  }

  /** Decoding what was encoded gives it back exactly when there is room for whole
  blocks of three, padding included. */
  lemma RoundTrip(s: seq<Byte>, room: nat)
    ensures Decode(Encode(s), room) == s <==> s == [] || room >= (|s| + 2) / 3 * 3
  {
    hide Encode, Clean, Blocks, Decode;
    EncodeClean(s);
    CleanAll(Encode(s));
    DecodeWhole(Encode(s), s, (|s| + 2) / 3, room);
  }

  lemma DecodeWhole(c: seq<Byte>, s: seq<Byte>, k: nat, room: nat)
    requires Clean(c) == c && |c| == k * 4 && Blocks(c) == Bytes(s)
    ensures Decode(c, room) == if k == 0 || k * 3 > room then [] else s
  {
    hide Clean, Blocks;
    assert k * 4 % 4 == 0 && k * 4 / 4 == k;
  }

  /** size_t is 64 bits wide. */
  const SIZE: nat := 0x1_0000_0000_0000_0000

  /** The room that base64_encode asks for, computed modulo 2^64. */
  function EncodeRoom(len: nat): nat {
    var olen := len * 4 % SIZE / 3 + 4;
    olen + olen / 72 + 1
  }

  /** The check for overflow is exact, and without one the room is enough. */
  lemma OverflowCheck(len: nat)
    requires len < SIZE
    ensures EncodeRoom(len) < len <==> len * 4 >= SIZE
    ensures len * 4 < SIZE ==> (len + 2) / 3 * 4 + 1 <= EncodeRoom(len)
  {
    var wraps := len * 4 / SIZE;
    var r := len * 4 % SIZE;
    assert r == len * 4 - SIZE * wraps && wraps < 4;
    var third := r / 3;
    assert 3 * third <= r < 3 * third + 3;
    var lines := (third + 4) / 72;
    assert 72 * lines <= third + 4 < 72 * lines + 72;
    assert EncodeRoom(len) == third + 4 + lines + 1;
  }

  /** base64_encode: the numeral text and its terminator, inside the room given, or
  nothing at all. */
  method EncodeInto(src: array<Byte>, len: nat, out: array<Byte>, outLen: nat) returns (n: nat)
    requires len <= src.Length && len < SIZE && outLen <= out.Length && src != out
    modifies out
    ensures if len * 4 >= SIZE || EncodeRoom(len) > outLen then n == 0 && out[..] == old(out[..])
            else n == |Encode(src[..len])| && n < outLen && out[..n] == Encode(src[..len]) && out[n] == 0 &&
                 out[n + 1..] == old(out[n + 1..])
  {
    hide Encode, Symbol;
    OverflowCheck(len);
    var olen := len * 4 % SIZE / 3 + 4;
    olen := olen + olen / 72;
    olen := olen + 1;
    if olen < len {
      return 0;
    }
    if olen > outLen {
      return 0;
    }
    ghost var goal := Encode(src[..len]);
    var i, pos := EncodeBlocks(src, len, out);
    EncodeLast(src[i..len]);
    if len - i > 0 {
      PutLast(out, pos, src[i..len]);
      pos := pos + 4;
    }
    out[pos] := 0;
    assert out[..pos] == goal;
    return pos;
  }

  /** The loop over full blocks. */
  method EncodeBlocks(src: array<Byte>, len: nat, out: array<Byte>) returns (i: nat, pos: nat)
    requires len <= src.Length && src != out && |Encode(src[..len])| < out.Length
    modifies out
    ensures i <= len < i + 3 && pos <= |Encode(src[..len])| && out[..pos] + Encode(src[i..len]) == Encode(src[..len])
    ensures forall k :: pos <= k < out.Length ==> out[k] == old(out[k])
  {
    hide Encode, Symbol, Quad;
    i, pos := 0, 0;
    ghost var goal := Encode(src[..len]);
    assert src[0..len] == src[..len];
    while len - i >= 3
      invariant 0 <= i <= len && pos <= |goal|
      invariant out[..pos] + Encode(src[i..len]) == goal
      invariant forall k :: pos <= k < out.Length ==> out[k] == old(out[k])
    {
      EncodeStep(src[i..len]);
      assert src[i..len][3..] == src[i + 3..len];
      ghost var before := out[..pos];
      PutQuad(out, pos, src[i], src[i + 1], src[i + 2]);
      ghost var q := Quad(src[i], src[i + 1], src[i + 2]);
      Shift3(before, q, Encode(src[i + 3..len]));
      i := i + 3;
      pos := pos + 4;
    }
  }

  lemma Shift3(a: seq<Byte>, b: seq<Byte>, c: seq<Byte>)
    ensures a + (b + c) == (a + b) + c
  {}

  /** Four symbols for a full block. */
  method PutQuad(out: array<Byte>, pos: nat, a: Byte, b: Byte, c: Byte)
    requires pos + 4 <= out.Length
    modifies out
    ensures out[..pos + 4] == old(out[..pos]) + Quad(a, b, c)
    ensures forall k :: pos + 4 <= k < out.Length ==> out[k] == old(out[k])
  {
    hide Symbol;
    out[pos] := Symbol(a / 4);
    out[pos + 1] := Symbol(a % 4 * 16 + b / 16);
    out[pos + 2] := Symbol(b % 16 * 4 + c / 64);
    out[pos + 3] := Symbol(c % 64);
  }

  /** The last one or two bytes, with padding. */
  method PutLast(out: array<Byte>, pos: nat, s: seq<Byte>)
    requires pos + 4 <= out.Length && 1 <= |s| <= 2
    modifies out
    ensures out[..pos + 4] == old(out[..pos]) + Encode(s)
    ensures forall k :: pos + 4 <= k < out.Length ==> out[k] == old(out[k])
  {
    hide Symbol, Encode;
    EncodeLast(s);
    out[pos] := Symbol(s[0] / 4);
    if |s| == 1 {
      out[pos + 1] := Symbol(s[0] % 4 * 16);
      out[pos + 2] := PAD;
    } else {
      out[pos + 1] := Symbol(s[0] % 4 * 16 + s[1] / 16);
      out[pos + 2] := Symbol(s[1] % 16 * 4);
    }
    out[pos + 3] := PAD;
    assert out[..pos] == old(out[..pos]) && out[..pos + 4] == out[..pos] + out[pos..pos + 4];
    assert out[pos..pos + 4] == Encode(s);
  }

  lemma EncodeStep(s: seq<Byte>)
    requires |s| >= 3
    ensures Encode(s) == Quad(s[0], s[1], s[2]) + Encode(s[3..])
  {
    hide Quad, Symbol;
  }

  lemma EncodeLast(s: seq<Byte>)
    requires |s| < 3
    ensures s == [] ==> Encode(s) == []
    ensures |s| == 1 ==> Encode(s) == [Symbol(s[0] / 4), Symbol(s[0] % 4 * 16), PAD, PAD]
    ensures |s| == 2 ==>
      Encode(s) == [Symbol(s[0] / 4), Symbol(s[0] % 4 * 16 + s[1] / 16), Symbol(s[1] % 16 * 4), PAD]
  {
    if |s| == 1 {
      QuadOfOne(s[0]);
    } else if |s| == 2 {
      QuadOfTwo(s[0], s[1]);
    }
    hide Quad, Symbol;
  }

  lemma QuadOfOne(a: Byte)
    ensures Quad(a, 0, 0)[..2] == [Symbol(a / 4), Symbol(a % 4 * 16)]
  {
    hide Symbol;
    var x: Six := a % 4 * 16;
    var y: Six := a % 4 * 16 + 0 / 16;
    assert x == y;
  }

  lemma QuadOfTwo(a: Byte, b: Byte)
    ensures Quad(a, b, 0)[..3] == [Symbol(a / 4), Symbol(a % 4 * 16 + b / 16), Symbol(b % 16 * 4)]
  {
    hide Symbol;
    var x: Six := b % 16 * 4;
    var y: Six := b % 16 * 4 + 0 / 64;
    assert x == y;
  }

  lemma {:induction false} CleanConcat(s: seq<Byte>, t: seq<Byte>)
    ensures Clean(s + t) == Clean(s) + Clean(t)
  {
    if s == [] {
      assert s + t == t;
    } else {
      assert (s + t)[1..] == s[1..] + t;
      CleanConcat(s[1..], t);
    }
  }

  lemma CleanStep(s: seq<Byte>, i: nat)
    requires i < |s|
    ensures Clean(s[..i + 1]) == Clean(s[..i]) + (if Value(s[i]) != NONE then [s[i]] else [])
    ensures Clean(s[i..]) == if Value(s[i]) != NONE then [s[i]] + Clean(s[i + 1..]) else Clean(s[i + 1..])
  {
    assert s[..i + 1] == s[..i] + [s[i]] && s[i..] == [s[i]] + s[i + 1..];
    CleanConcat(s[..i], [s[i]]);
    CleanConcat([s[i]], s[i + 1..]);
    assert [s[i]][1..] == [];
    assert [] + Clean(s[i + 1..]) == Clean(s[i + 1..]);
  }

  /** Blocks seen so far, and what is still to come. */
  function After(done: seq<Byte>, rest: Decoded): Decoded {
    match rest case Bad => Bad case Bytes(b) => Bytes(done + b)
  }

  lemma BlocksStep(q: seq<Byte>, c: seq<Byte>, done: seq<Byte>)
    requires |q| == 4 && AllSymbols(q) && AllSymbols(c)
    ensures AllSymbols(q + c)
    ensures Pads(q) > 2 ==> After(done, Blocks(q + c)) == Bad
    ensures 0 < Pads(q) < 3 ==> After(done, Blocks(q + c)) == Bytes(done + Triple(q)[..3 - Pads(q)])
    ensures Pads(q) == 0 ==> After(done, Blocks(q + c)) == After(done + Triple(q), Blocks(c))
  {
    assert (q + c)[..4] == q && (q + c)[4..] == c;
    if Pads(q) == 0 && Blocks(c).Bytes? {
      assert done + (Triple(q) + Blocks(c).bytes) == (done + Triple(q)) + Blocks(c).bytes;
    }
  }

  /** The counting loop of base64_decode. */
  method CountSymbols(src: array<Byte>, len: nat) returns (count: nat)
    requires len <= src.Length
    ensures count == |Clean(src[..len])|
  {
    count := 0;
    var i := 0;
    while i < len
      invariant 0 <= i <= len && count == |Clean(src[..i])|
    {
      CleanStep(src[..], i);
      assert src[..][..i + 1] == src[..i + 1] && src[..][..i] == src[..i];
      if Value(src[i]) != NONE {
        count := count + 1;
      }
      i := i + 1;
    }
  }

  /** base64_decode. The output may be the source itself: writing never overtakes
  reading. */
  method DecodeInto(src: array<Byte>, len: nat, out: array<Byte>, outLen: nat) returns (n: nat)
    requires len <= src.Length && outLen <= out.Length
    modifies out
    ensures n == |Decode(old(src[..len]), outLen)| && n <= outLen && out[..n] == Decode(old(src[..len]), outLen)
    ensures forall k :: outLen <= k < out.Length ==> out[k] == old(out[k])
  {
    hide Clean, Blocks;
    var count := CountSymbols(src, len);
    if count == 0 || count % 4 != 0 {
      return 0;
    }
    var olen := count / 4 * 3;
    if olen > outLen {
      return 0;
    }
    n := DecodeBlocks(src, len, out, outLen);
  }

  /** The decoding loop of base64_decode. */
  method DecodeBlocks(src: array<Byte>, len: nat, out: array<Byte>, outLen: nat) returns (n: nat)
    requires len <= src.Length && outLen <= out.Length
    requires var count := |Clean(src[..len])|; count % 4 == 0 && count / 4 * 3 <= outLen
    modifies out
    ensures n <= outLen && out[..n] == AsBytes(Blocks(Clean(old(src[..len]))))
    ensures forall k :: outLen <= k < out.Length ==> out[k] == old(out[k])
  {
    hide Clean, Blocks, Triple, Value, Pads, After, Progress, AllSymbols;
    ghost var s := src[..len];
    ghost var c := Clean(s);
    ghost var count := |c|;
    var pos, pad, i := 0, 0, 0;
    var block: seq<int> := [];
    ghost var q: seq<Byte> := [];
    ghost var blocks := 0;
    assert count == 4 * (count / 4);
    NoPads();
    CleanIsSymbols(s);
    ProgressStart(c);
    assert s[0..] == s && out[..0] == [];
    while i < len
      invariant 0 <= i <= len && |q| == |block| < 4 && AllSymbols(q) && pad == Pads(q)
      invariant forall k :: 0 <= k < |q| ==> block[k] == Value(q[k])
      invariant forall k :: i <= k < len ==> src[k] == s[k]
      invariant pos == 3 * blocks && 4 * blocks + |q| <= i && 4 * blocks + |q| + |Clean(s[i..])| == count
      invariant pos <= outLen
      invariant Progress(c, out[..pos], q, Clean(s[i..]))
      invariant forall k :: outLen <= k < out.Length ==> out[k] == old(out[k])
    {
      CleanStep(s, i);
      var tmp := Value(src[i]);
      ghost var rest := Clean(s[i + 1..]);
      if tmp == NONE {
        i := i + 1;
        continue;
      }
      assert |Clean(s[i..])| == 1 + |rest|;
      CleanIsSymbols(s[i + 1..]);
      ProgressTake(c, out[..pos], q, s[i], rest);
      PadsSnoc(q, s[i]);
      if src[i] == PAD {
        pad := pad + 1;
      }
      block := block + [tmp];
      q := q + [s[i]];
      if |block| == 4 {
        var over: bool;
        assert 4 * blocks + 4 + |rest| == count && 3 * (blocks + 1) <= outLen;
        pos, over := TakeBlock(out, pos, block, pad, c, q, rest);
        if over {
          return pos;
        }
        blocks := blocks + 1;
        block := [];
        q := [];
      }
      i := i + 1;
    }
    CleanEnd(s);
    ProgressEnd(c, out[..pos], q);
    return pos;
  }

  /** A full block is written: it ends the data, or the rest is to come. */
  method TakeBlock(out: array<Byte>, pos0: nat, block: seq<int>, pad: nat,
      ghost c: seq<Byte>, ghost q: seq<Byte>, ghost rest: seq<Byte>) returns (pos: nat, over: bool)
    requires |q| == |block| == 4 && AllSymbols(q) && pad == Pads(q) && pos0 + 3 <= out.Length
    requires (forall k :: 0 <= k < 4 ==> block[k] == Value(q[k])) && Progress(c, out[..pos0], q, rest)
    modifies out
    ensures over == (pad > 0) && AllSymbols(c) && pos <= pos0 + 3
    ensures if over then out[..pos] == AsBytes(Blocks(c)) else pos == pos0 + 3 && Progress(c, out[..pos], [], rest)
    ensures forall k :: pos0 + 3 <= k < out.Length ==> out[k] == old(out[k])
  {
    hide Blocks, Triple, Value, Pads, Progress, AllSymbols;
    ProgressFull(c, out[..pos0], q, rest);
    pos, over := PutBlock(out, pos0, block, pad, q);
  }

  /** What the blocks so far have given, and the symbols still to come. */
  ghost predicate Progress(c: seq<Byte>, done: seq<Byte>, q: seq<Byte>, rest: seq<Byte>) {
    && AllSymbols(c) && AllSymbols(q) && AllSymbols(rest) && AllSymbols(q + rest)
    && After(done, Blocks(q + rest)) == Blocks(c)
  }

  lemma ProgressStart(c: seq<Byte>)
    requires AllSymbols(c)
    ensures Progress(c, [], [], c)
  {
    hide Blocks, After;
    NoneLeft(c);
    AfterNothing(Blocks(c));
  }

  lemma ProgressTake(c: seq<Byte>, done: seq<Byte>, q: seq<Byte>, x: Byte, rest: seq<Byte>)
    requires Progress(c, done, q, [x] + rest) && Value(x) != NONE && AllSymbols(rest)
    ensures Progress(c, done, q + [x], rest) && AllSymbols(q + [x])
  {
    hide Blocks, After, Value;
    Shift(q, x, rest);
  }

  lemma ProgressFull(c: seq<Byte>, done: seq<Byte>, q: seq<Byte>, rest: seq<Byte>)
    requires |q| == 4 && Progress(c, done, q, rest)
    ensures AllSymbols(q) && AllSymbols(c)
    ensures Pads(q) > 2 ==> AsBytes(Blocks(c)) == []
    ensures 0 < Pads(q) < 3 ==> AsBytes(Blocks(c)) == done + Triple(q)[..3 - Pads(q)]
    ensures Pads(q) == 0 ==> Progress(c, done + Triple(q), [], rest)
  {
    hide Blocks, After, Triple, Pads, Value;
    BlocksStep(q, rest, done);
    NoneLeft(rest);
  }

  lemma ProgressEnd(c: seq<Byte>, done: seq<Byte>, q: seq<Byte>)
    requires |q| < 4 && Progress(c, done, q, [])
    ensures AllSymbols(c) && Blocks(c) == Bytes(done)
  {
    assert q + [] == q;
    BlocksEnd(q);
    AfterAll(done);
  }

  /** A full block: its bytes without the padded ones, and whether it is the last. */
  method PutBlock(out: array<Byte>, pos0: nat, block: seq<int>, pad: nat, ghost q: seq<Byte>)
    returns (pos: nat, over: bool)
    requires |q| == |block| == 4 && AllSymbols(q) && pad == Pads(q) && pos0 + 3 <= out.Length
    requires forall k :: 0 <= k < 4 ==> block[k] == Value(q[k])
    modifies out
    ensures over == (pad > 0) && pos == (if pad > 2 then 0 else pos0 + 3 - pad)
    ensures pad <= 2 ==> out[..pos] == old(out[..pos0]) + Triple(q)[..3 - pad]
    ensures pad == 0 ==> out[..pos] == old(out[..pos0]) + Triple(q)
    ensures forall k :: pos0 + 3 <= k < out.Length ==> out[k] == old(out[k])
  {
    hide Triple, Value, Pads;
    TripleOf(q, block);
    PutTriple(out, pos0, block);
    pos := pos0 + 3;
    assert out[..pos] == out[..pos0] + Triple(q);
    over := false;
    if pad > 0 {
      over := true;
      if pad == 1 {
        pos := pos - 1;
      } else if pad == 2 {
        pos := pos - 2;
      } else {
        pos := 0;
      }
    }
  }

  /** The three bytes of a block. */
  method PutTriple(out: array<Byte>, pos: nat, v: seq<int>)
    requires pos + 3 <= out.Length && |v| == 4 && forall k :: 0 <= k < 4 ==> 0 <= v[k] < 64
    modifies out
    ensures out[..pos] == old(out[..pos])
    ensures out[pos..pos + 3] == [(v[0] * 4 + v[1] / 16) % 256, (v[1] * 16 % 256 + v[2] / 4) % 256,
        (v[2] * 64 % 256 + v[3]) % 256]
    ensures forall k :: pos + 3 <= k < out.Length ==> out[k] == old(out[k])
  {
    out[pos] := (v[0] * 4 + v[1] / 16) % 256;
    out[pos + 1] := (v[1] * 16 % 256 + v[2] / 4) % 256;
    out[pos + 2] := (v[2] * 64 % 256 + v[3]) % 256;
  }

  lemma TripleOf(q: seq<Byte>, v: seq<int>)
    requires |q| == |v| == 4 && AllSymbols(q) && forall k :: 0 <= k < 4 ==> v[k] == Value(q[k])
    ensures Triple(q) == [(v[0] * 4 + v[1] / 16) % 256, (v[1] * 16 % 256 + v[2] / 4) % 256,
        (v[2] * 64 % 256 + v[3]) % 256]
    ensures forall k :: 0 <= k < 4 ==> 0 <= v[k] < 64
    ensures Pads(q) <= 4
  {
    PadsOf(q);
  }

  lemma Shift(q: seq<Byte>, x: Byte, rest: seq<Byte>)
    ensures q + ([x] + rest) == (q + [x]) + rest
  {}

  lemma NoneLeft(rest: seq<Byte>)
    ensures [] + rest == rest
  {}

  lemma AfterNothing(d: Decoded)
    ensures After([], d) == d
  {
    if d.Bytes? { assert [] + d.bytes == d.bytes; }
  }

  lemma AfterAll(done: seq<Byte>)
    ensures After(done, Bytes([])) == Bytes(done)
  {
    assert done + [] == done;
  }

  lemma CleanIsSymbols(s: seq<Byte>)
    ensures AllSymbols(Clean(s))
  {}

  lemma NoPads()
    ensures Pads([]) == 0 && AllSymbols([])
  {}

  lemma {:induction false} PadsSnoc(q: seq<Byte>, x: Byte)
    ensures Pads(q + [x]) == Pads(q) + (if x == PAD then 1 else 0)
  {
    if q == [] {
      assert [x][1..] == [];
    } else {
      assert (q + [x])[1..] == q[1..] + [x];
      PadsSnoc(q[1..], x);
    }
  }

  lemma CleanEnd(s: seq<Byte>)
    ensures Clean(s[|s|..]) == []
  {}

  lemma BlocksEnd(q: seq<Byte>)
    requires |q| < 4 && AllSymbols(q)
    ensures Blocks(q) == Bytes([])
  {}
}
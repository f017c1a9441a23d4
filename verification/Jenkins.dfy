/** The hash of jenkins_hash.c on a little-endian machine: the paths for keys
aligned to four bytes, to two, or not at all compute one hash, and the mixing of
a block loses nothing. */
module Jenkins {
  import opened Basics

  const U32: nat := 0x1_0000_0000

  type Word32 = x: nat | x < 0x1_0000_0000

  function Plus(x: Word32, y: Word32): Word32 { (x + y) % U32 }

  function Minus(x: Word32, y: Word32): Word32 { (x + U32 - y) % U32 }

  lemma Pow2Of32()
    ensures Pow2(32) == U32
  {
    assert Pow2(8) == 0x100;
    assert Pow2(16) == 0x1_0000;
    assert Pow2(24) == 0x100_0000;
  }

  /** Exclusive or of the lowest n bits. */
  function XorBits(x: nat, y: nat, n: nat): (r: nat)
    ensures r < Pow2(n)
  {
    if n == 0 then 0 else (x + y) % 2 + 2 * XorBits(x / 2, y / 2, n - 1)
  }

  function Xor(x: Word32, y: Word32): Word32 {
    Pow2Of32();
    XorBits(x, y, 32)
  }

  /** rot(x, k). */
  function Rot(x: Word32, k: nat): Word32
    requires k <= 32
  {
    Xor(x * Pow2(k) % U32, x / Pow2(32 - k) % U32)
  }

  lemma LowestBit(x: nat, y: nat, n: nat)
    requires n > 0
    ensures XorBits(x, y, n) % 2 == (x + y) % 2 && XorBits(x, y, n) / 2 == XorBits(x / 2, y / 2, n - 1)
  {
    DivUnique(XorBits(x, y, n), 2, XorBits(x / 2, y / 2, n - 1), (x + y) % 2);
  }

  lemma Parity(x: nat, y: nat, r: nat)
    requires r % 2 == (x + y) % 2
    ensures (r + y) % 2 == x % 2
  {}

  lemma {:induction false} XorBitsTwice(x: nat, y: nat, n: nat)
    requires x < Pow2(n)
    ensures XorBits(XorBits(x, y, n), y, n) == x
  {
    if n > 0 {
      assert x / 2 < Pow2(n - 1);
      XorBitsTwice(x / 2, y / 2, n - 1);
      hide XorBits, Pow2;
      var r := XorBits(x, y, n);
      LowestBit(x, y, n);
      LowestBit(r, y, n);
      Parity(x, y, r);
      DivUnique(XorBits(r, y, n), 2, x / 2, x % 2);
    }
  }

  lemma Undone(x: Word32, y: Word32)
    ensures Minus(Plus(x, y), y) == x && Plus(Minus(x, y), y) == x && Xor(Xor(x, y), y) == x
  {
    hide XorBits, Pow2;
    Pow2Of32();
    XorBitsTwice(x, y, 32);
  }

  /** The three words a, b and c. */
  datatype State = State(a: Word32, b: Word32, c: Word32)

  /** One line of mix: x -= z; x ^= rot(z, k); z += y. */
  function Line(x: Word32, y: Word32, z: Word32, k: nat): (Word32, Word32)
    requires k <= 32
  {
    (Xor(Minus(x, z), Rot(z, k)), Plus(z, y))
  }

  /** The line backwards. */
  function LineBack(x: Word32, y: Word32, z: Word32, k: nat): (Word32, Word32)
    requires k <= 32
  {
    var z0 := Minus(z, y);
    (Plus(Xor(x, Rot(z0, k)), z0), z0)
  }

  /** The lines act on a and c, then b and a, then c and b. */
  function Round(s: State, i: nat, j: nat, k: nat): State
    requires i <= 32 && j <= 32 && k <= 32
  {
    var (a, c) := Line(s.a, s.b, s.c, i);
    var (b, a') := Line(s.b, c, a, j);
    var (c', b') := Line(c, a', b, k);
    State(a', b', c')
  }

  function RoundBack(s: State, i: nat, j: nat, k: nat): State
    requires i <= 32 && j <= 32 && k <= 32
  {
    var (c, b) := LineBack(s.c, s.a, s.b, k);
    var (b', a) := LineBack(b, c, s.a, j);
    var (a', c') := LineBack(a, b', c, i);
    State(a', b', c')
  }

  function Mix(s: State): State {
    Round(Round(s, 4, 6, 8), 16, 19, 4)
  }

  function Unmix(s: State): State {
    RoundBack(RoundBack(s, 16, 19, 4), 4, 6, 8)
  }

  /** final(a, b, c). */
  function Final(s: State): Word32 {
    var c0 := Minus(Xor(s.c, s.b), Rot(s.b, 14));
    var a0 := Minus(Xor(s.a, c0), Rot(c0, 11));
    var b0 := Minus(Xor(s.b, a0), Rot(a0, 25));
    var c1 := Minus(Xor(c0, b0), Rot(b0, 16));
    var a1 := Minus(Xor(a0, c1), Rot(c1, 4));
    var b1 := Minus(Xor(b0, a1), Rot(a1, 14));
    Minus(Xor(c1, b1), Rot(b1, 24))
  }

  lemma LineUndone(x: Word32, y: Word32, z: Word32, k: nat)
    requires k <= 32
    ensures var (x', z') := Line(x, y, z, k); LineBack(x', y, z', k) == (x, z)
    ensures var (x', z') := LineBack(x, y, z, k); Line(x', y, z', k) == (x, z)
  {
    hide Rot, Plus, Minus, Xor;
    var z0 := Minus(z, y);
    Undone(z, y);
    Undone(x, z);
    Undone(Minus(x, z), Rot(z, k));
    Undone(Xor(x, Rot(z0, k)), z0);
    Undone(x, Rot(z0, k));
  }

  lemma RoundUndone(s: State, i: nat, j: nat, k: nat)
    requires i <= 32 && j <= 32 && k <= 32
    ensures RoundBack(Round(s, i, j, k), i, j, k) == s && Round(RoundBack(s, i, j, k), i, j, k) == s
  {
    hide Line, LineBack;
    var (a, c) := Line(s.a, s.b, s.c, i);
    LineUndone(s.a, s.b, s.c, i);
    var (b, a') := Line(s.b, c, a, j);
    LineUndone(s.b, c, a, j);
    LineUndone(c, a', b, k);
    var (d, e) := LineBack(s.c, s.a, s.b, k);
    LineUndone(s.c, s.a, s.b, k);
    var (e', f) := LineBack(e, d, s.a, j);
    LineUndone(e, d, s.a, j);
    LineUndone(f, e', d, i);
  }

  /** mix is reversible. */
  lemma MixReversible(s: State)
    ensures Unmix(Mix(s)) == s && Mix(Unmix(s)) == s
  {
    hide Round, RoundBack;
    RoundUndone(s, 4, 6, 8);
    RoundUndone(Round(s, 4, 6, 8), 16, 19, 4);
    RoundUndone(s, 16, 19, 4);
    RoundUndone(RoundBack(s, 16, 19, 4), 4, 6, 8);
  }

  /** The word of four bytes, lowest first. */
  function Le(b0: Byte, b1: Byte, b2: Byte, b3: Byte): Word32 {
    b0 + 0x100 * b1 + 0x1_0000 * b2 + 0x100_0000 * b3
  }

  function At(key: seq<Byte>, i: nat): Byte {
    if i < |key| then key[i] else 0
  }

  /** Four bytes of the key as a number, as if zeros followed its end. */
  function Word(key: seq<Byte>, i: nat): Word32 {
    Le(At(key, i), At(key, i + 1), At(key, i + 2), At(key, i + 3))
  }

  /** The first twelve bytes added to the words. */
  function Add(s: State, key: seq<Byte>): State {
    State(Plus(s.a, Word(key, 0)), Plus(s.b, Word(key, 4)), Plus(s.c, Word(key, 8)))
  }

  /** The words before the last block: blocks of twelve bytes are added and mixed
  while more than twelve are left. */
  function Body(s: State, key: seq<Byte>): State
    decreases |key|
  {
    if |key| > 12 then Body(Mix(Add(s, key)), key[12..]) else s
  }

  /** The last block, of at most twelve bytes. */
  function Last(s: State, key: seq<Byte>): Word32 {
    if key == [] then s.c else Final(Add(s, key))
  }

  /** What is left of the key when at most twelve bytes are. */
  function Tail(key: seq<Byte>): (t: seq<Byte>)
    ensures |t| <= 12
    decreases |key|
  {
    if |key| > 12 then Tail(key[12..]) else key
  }

  function Hash(s: State, key: seq<Byte>): Word32 {
    Last(Body(s, key), Tail(key))
  }

  function Init(length: nat): State {
    var i := Plus(0xdeadbeef, length % U32);
    State(i, i, i)
  }

  lemma PlusCancels(x: Word32, y: Word32, z: Word32, w: Word32)
    requires Plus(x, z) == Plus(y, w)
    ensures x == y <==> z == w
  {
    Undone(x, z);
    Undone(y, w);
    Undone(z, x);
    Undone(w, y);
    assert x + z == z + x && y + w == w + y;
  }

  lemma AddUndone(s: State, t: State, key: seq<Byte>, key': seq<Byte>)
    requires Add(s, key) == Add(t, key')
    ensures key == key' ==> s == t
    ensures s == t ==> Word(key, 0) == Word(key', 0) && Word(key, 4) == Word(key', 4) && Word(key, 8) == Word(key', 8)
  {
    hide Plus, Word;
    PlusCancels(s.a, t.a, Word(key, 0), Word(key', 0));
    PlusCancels(s.b, t.b, Word(key, 4), Word(key', 4));
    PlusCancels(s.c, t.c, Word(key, 8), Word(key', 8));
  }

  lemma ByteFirst(b: Byte, m: nat, c: Byte, n: nat)
    requires b + 0x100 * m == c + 0x100 * n
    ensures b == c && m == n
  {}

  lemma LeInjective(b0: Byte, b1: Byte, b2: Byte, b3: Byte, c0: Byte, c1: Byte, c2: Byte, c3: Byte)
    requires Le(b0, b1, b2, b3) == Le(c0, c1, c2, c3)
    ensures b0 == c0 && b1 == c1 && b2 == c2 && b3 == c3
  {
    ByteFirst(b0, b1 + 0x100 * (b2 + 0x100 * b3), c0, c1 + 0x100 * (c2 + 0x100 * c3));
    ByteFirst(b1, b2 + 0x100 * b3, c1, c2 + 0x100 * c3);
    ByteFirst(b2, b3, c2, c3);
  }

  /** Different words stay different whatever is hashed, up to the last block. */
  lemma {:induction false} StatesStayApart(s: State, t: State, key: seq<Byte>)
    requires s != t
    ensures Body(s, key) != Body(t, key)
    decreases |key|
  {
    hide Mix, Add;
    if |key| > 12 {
      if Add(s, key) == Add(t, key) { AddUndone(s, t, key, key); }
      MixReversible(Add(s, key));
      MixReversible(Add(t, key));
      StatesStayApart(Mix(Add(s, key)), Mix(Add(t, key)), key[12..]);
    }
  }

  lemma WordOf(x: seq<Byte>, i: nat, rest: seq<Byte>)
    requires i + 4 <= |x|
    ensures Word(x + rest, i) == Le(x[i], x[i + 1], x[i + 2], x[i + 3])
  {}

  lemma SameFour(x: seq<Byte>, y: seq<Byte>, rest: seq<Byte>, i: nat)
    requires i + 4 <= |x| == |y| && Word(x + rest, i) == Word(y + rest, i)
    ensures x[i] == y[i] && x[i + 1] == y[i + 1] && x[i + 2] == y[i + 2] && x[i + 3] == y[i + 3]
  {
    hide Word, Le;
    WordOf(x, i, rest);
    WordOf(y, i, rest);
    LeInjective(x[i], x[i + 1], x[i + 2], x[i + 3], y[i], y[i + 1], y[i + 2], y[i + 3]);
  }

  /** Two different blocks lead to different words. */
  lemma BlocksDiffer(s: State, x: seq<Byte>, y: seq<Byte>, rest: seq<Byte>)
    requires |x| == |y| == 12 && x != y
    ensures Add(s, x + rest) != Add(s, y + rest)
  {
    hide Word, Le;
    if Add(s, x + rest) == Add(s, y + rest) {
      AddUndone(s, s, x + rest, y + rest);
      SameFour(x, y, rest, 0);
      SameFour(x, y, rest, 4);
      SameFour(x, y, rest, 8);
      assert forall j :: 0 <= j < 12 ==> x[j] == y[j];
    }
  }

  lemma BodyStep(s: State, x: seq<Byte>, rest: seq<Byte>)
    requires |x| == 12 && rest != []
    ensures Body(s, x + rest) == Body(Mix(Add(s, x + rest)), rest)
  {
    hide Mix, Add;
    assert (x + rest)[12..] == rest;
  }

  /** Keys that differ in one block before the last never lead to the same words:
  whatever the keys share after it, the difference is still there. */
  lemma {:induction false} NoCollisionInside(s: State, before: seq<Byte>, x: seq<Byte>, y: seq<Byte>, after: seq<Byte>)
    requires |before| % 12 == 0 && |x| == |y| == 12 && x != y && after != []
    ensures Body(s, before + x + after) != Body(s, before + y + after)
    decreases |before|
  {
    hide Mix, Add, Body;
    if before == [] {
      assert before + x == x && before + y == y;
      BlocksDiffer(s, x, y, after);
      MixReversible(Add(s, x + after));
      MixReversible(Add(s, y + after));
      StatesStayApart(Mix(Add(s, x + after)), Mix(Add(s, y + after)), after);
      BodyStep(s, x, after);
      BodyStep(s, y, after);
    } else {
      var first, more := before[..12], before[12..];
      var rx, ry := more + x + after, more + y + after;
      assert before + x + after == first + rx && before + y + after == first + ry;
      FirstBlock(s, first + rx, first + ry);
      BodyStep(s, first, rx);
      BodyStep(s, first, ry);
      NoCollisionInside(Mix(Add(s, first + rx)), more, x, y, after);
    }
  }

  lemma FirstBlock(s: State, key: seq<Byte>, key': seq<Byte>)
    requires |key| >= 12 && |key'| >= 12 && forall i :: 0 <= i < 12 ==> key[i] == key'[i]
    ensures Add(s, key) == Add(s, key')
  {}

  lemma HashSteps(s: State, key: seq<Byte>)
    ensures |key| > 12 ==> Hash(s, key) == Hash(Mix(Add(s, key)), key[12..])
    ensures |key| <= 12 ==> Hash(s, key) == Last(s, key)
  {
    hide Mix, Add, Last;
  }

  lemma PlusZero(x: Word32)
    ensures Plus(x, 0) == x
  {}

  lemma PlusInTwo(x: Word32, y: Word32, z: Word32)
    requires y + z < U32
    ensures Plus(Plus(x, y), z) == Plus(x, y + z)
  {}

  /** An aligned 32-bit read on a little-endian machine. */
  function Load32(mem: seq<Byte>, p: nat): Word32
    requires p % 4 == 0 && p + 4 <= |mem|
  {
    Le(mem[p], mem[p + 1], mem[p + 2], mem[p + 3])
  }

  /** An aligned 16-bit read. */
  function Load16(mem: seq<Byte>, p: nat): (w: nat)
    requires p % 2 == 0 && p + 2 <= |mem|
    ensures w < 0x1_0000
  {
    mem[p] as int + 0x100 * mem[p + 1] as int
  }

  /** k[0] + (k[1] << 16). */
  function Pair(mem: seq<Byte>, p: nat): Word32
    requires p % 2 == 0 && p + 4 <= |mem|
  {
    Load16(mem, p) + Load16(mem, p + 2) * 0x1_0000
  }

  lemma LeMasked(b0: Byte, b1: Byte, b2: Byte, b3: Byte)
    ensures Le(b0, b1, b2, b3) % 0x100_0000 == Le(b0, b1, b2, 0)
    ensures Le(b0, b1, b2, b3) % 0x1_0000 == Le(b0, b1, 0, 0)
    ensures Le(b0, b1, b2, b3) % 0x100 == Le(b0, 0, 0, 0)
  {
    DivUnique(Le(b0, b1, b2, b3), 0x100_0000, b3, Le(b0, b1, b2, 0));
    DivUnique(Le(b0, b1, b2, b3), 0x1_0000, b2 + 0x100 * b3, Le(b0, b1, 0, 0));
    DivUnique(Le(b0, b1, b2, b3), 0x100, b1 + 0x100 * b2 + 0x1_0000 * b3, Le(b0, 0, 0, 0));
  }

  lemma WholeWord(size: nat, p: nat)
    requires size % 4 == 0 && p % 4 == 0 && p < size
    ensures p + 4 <= size
  {}

  /** What an aligned read of the key's word at i gives, past the key's end masked off. */
  lemma ReadWord(mem: seq<Byte>, k: nat, length: nat, i: nat)
    requires (k + i) % 4 == 0 && k + length <= |mem| && |mem| % 4 == 0 && i < length
    ensures k + i + 4 <= |mem|
    ensures var w := Word(mem[k..k + length], i);
      (length >= i + 4 ==> Load32(mem, k + i) == w) && (length == i + 3 ==> Load32(mem, k + i) % 0x100_0000 == w) &&
      (length == i + 2 ==> Load32(mem, k + i) % 0x1_0000 == w) && (length == i + 1 ==> Load32(mem, k + i) % 0x100 == w)
  {
    hide Le;
    var p, key := k + i, mem[k..k + length];
    WholeWord(|mem|, p);
    assert At(key, i) == mem[p];
    assert At(key, i + 1) == if length > i + 1 then mem[p + 1] else 0;
    assert At(key, i + 2) == if length > i + 2 then mem[p + 2] else 0;
    assert At(key, i + 3) == if length > i + 3 then mem[p + 3] else 0;
    LeMasked(mem[p], mem[p + 1], mem[p + 2], mem[p + 3]);
  }

  /** The same put together from 16-bit reads and bytes. */
  lemma ReadHalves(mem: seq<Byte>, k: nat, length: nat, i: nat)
    requires (k + i) % 2 == 0 && k + length <= |mem| && i < length
    ensures var w, p := Word(mem[k..k + length], i), k + i;
      (length >= i + 4 ==> Pair(mem, p) == w) &&
      (length == i + 3 ==> mem[p + 2] as int * 0x1_0000 + Load16(mem, p) == w) &&
      (length == i + 2 ==> Load16(mem, p) == w) && (length == i + 1 ==> mem[p] == w)
  {
    var p, key := k + i, mem[k..k + length];
    assert forall j :: p <= j < k + length ==> key[j - k] == mem[j];
  }

  lemma NoWord(key: seq<Byte>, i: nat)
    requires |key| <= i
    ensures Word(key, i) == 0
  {}

  /** The last block of a key aligned to four bytes. */
  method LastWords(mem: seq<Byte>, k: nat, length: nat, s: State) returns (h: Word32)
    requires k % 4 == 0 && k + length <= |mem| && |mem| % 4 == 0 && length <= 12
    ensures h == Last(s, mem[k..k + length])
  {
    hide Plus, Word, Load32, Final;
    var a, b, c := s.a, s.b, s.c;
    ghost var key := mem[k..k + length];
    PlusZero(a);
    PlusZero(b);
    PlusZero(c);
    if length > 0 { ReadWord(mem, k, length, 0); } else { NoWord(key, 0); }
    if length > 4 { ReadWord(mem, k, length, 4); } else { NoWord(key, 4); }
    if length > 8 { ReadWord(mem, k, length, 8); } else { NoWord(key, 8); }
    match length {
      case 12 =>
        c, b, a := Plus(c, Load32(mem, k + 8)), Plus(b, Load32(mem, k + 4)), Plus(a, Load32(mem, k));
      case 11 =>
        c, b, a := Plus(c, Load32(mem, k + 8) % 0x100_0000), Plus(b, Load32(mem, k + 4)), Plus(a, Load32(mem, k));
      case 10 =>
        c, b, a := Plus(c, Load32(mem, k + 8) % 0x1_0000), Plus(b, Load32(mem, k + 4)), Plus(a, Load32(mem, k));
      case 9 =>
        c, b, a := Plus(c, Load32(mem, k + 8) % 0x100), Plus(b, Load32(mem, k + 4)), Plus(a, Load32(mem, k));
      case 8 =>
        b, a := Plus(b, Load32(mem, k + 4)), Plus(a, Load32(mem, k));
      case 7 =>
        b, a := Plus(b, Load32(mem, k + 4) % 0x100_0000), Plus(a, Load32(mem, k));
      case 6 =>
        b, a := Plus(b, Load32(mem, k + 4) % 0x1_0000), Plus(a, Load32(mem, k));
      case 5 =>
        b, a := Plus(b, Load32(mem, k + 4) % 0x100), Plus(a, Load32(mem, k));
      case 4 =>
        a := Plus(a, Load32(mem, k));
      case 3 =>
        a := Plus(a, Load32(mem, k) % 0x100_0000);
      case 2 =>
        a := Plus(a, Load32(mem, k) % 0x1_0000);
      case 1 =>
        a := Plus(a, Load32(mem, k) % 0x100);
      case _ =>
        return c;
    }
    assert key != [];
    h := Final(State(a, b, c));
  }

  /** The last block of a key aligned to two bytes. */
  method LastHalves(mem: seq<Byte>, k: nat, length: nat, s: State) returns (h: Word32)
    requires k % 2 == 0 && k + length <= |mem| && length <= 12
    ensures h == Last(s, mem[k..k + length])
  {
    hide Plus, Word, Load16, Pair, Final;
    var a, b, c := s.a, s.b, s.c;
    ghost var key := mem[k..k + length];
    PlusZero(a);
    PlusZero(b);
    PlusZero(c);
    if length > 0 { ReadHalves(mem, k, length, 0); } else { NoWord(key, 0); }
    if length > 4 { ReadHalves(mem, k, length, 4); } else { NoWord(key, 4); }
    if length > 8 { ReadHalves(mem, k, length, 8); } else { NoWord(key, 8); }
    match length {
      case 12 =>
        c, b, a := Plus(c, Pair(mem, k + 8)), Plus(b, Pair(mem, k + 4)), Plus(a, Pair(mem, k));
      case 11 =>
        PlusInTwo(c, mem[k + 10] as int * 0x1_0000, Load16(mem, k + 8));
        c := Plus(c, mem[k + 10] as int * 0x1_0000);
        c, b, a := Plus(c, Load16(mem, k + 8)), Plus(b, Pair(mem, k + 4)), Plus(a, Pair(mem, k));
      case 10 =>
        c, b, a := Plus(c, Load16(mem, k + 8)), Plus(b, Pair(mem, k + 4)), Plus(a, Pair(mem, k));
      case 9 =>
        c := Plus(c, mem[k + 8]);
        b, a := Plus(b, Pair(mem, k + 4)), Plus(a, Pair(mem, k));
      case 8 =>
        b, a := Plus(b, Pair(mem, k + 4)), Plus(a, Pair(mem, k));
      case 7 =>
        PlusInTwo(b, mem[k + 6] as int * 0x1_0000, Load16(mem, k + 4));
        b := Plus(b, mem[k + 6] as int * 0x1_0000);
        b, a := Plus(b, Load16(mem, k + 4)), Plus(a, Pair(mem, k));
      case 6 =>
        b, a := Plus(b, Load16(mem, k + 4)), Plus(a, Pair(mem, k));
      case 5 =>
        b := Plus(b, mem[k + 4]);
        a := Plus(a, Pair(mem, k));
      case 4 =>
        a := Plus(a, Pair(mem, k));
      case 3 =>
        PlusInTwo(a, mem[k + 2] as int * 0x1_0000, Load16(mem, k));
        a := Plus(a, mem[k + 2] as int * 0x1_0000);
        a := Plus(a, Load16(mem, k));
      case 2 =>
        a := Plus(a, Load16(mem, k));
      case 1 =>
        a := Plus(a, mem[k]);
      case _ =>
        return c;
    }
    assert key != [];
    h := Final(State(a, b, c));
  }

  /** What the cases that fall through add to one word, highest byte first. */
  method AddFrom(key: seq<Byte>, i: nat, x0: Word32) returns (x: Word32)
    requires i < |key|
    ensures x == Plus(x0, Word(key, i))
  {
    hide Plus;
    x := x0;
    ghost var sum := 0;
    PlusZero(x0);
    if |key| > i + 3 {
      PlusInTwo(x0, sum, key[i + 3] as int * 0x100_0000);
      x, sum := Plus(x, key[i + 3] as int * 0x100_0000), sum + key[i + 3] as int * 0x100_0000;
    }
    if |key| > i + 2 {
      PlusInTwo(x0, sum, key[i + 2] as int * 0x1_0000);
      x, sum := Plus(x, key[i + 2] as int * 0x1_0000), sum + key[i + 2] as int * 0x1_0000;
    }
    if |key| > i + 1 {
      PlusInTwo(x0, sum, key[i + 1] as int * 0x100);
      x, sum := Plus(x, key[i + 1] as int * 0x100), sum + key[i + 1] as int * 0x100;
    }
    PlusInTwo(x0, sum, key[i]);
    x, sum := Plus(x, key[i]), sum + key[i];
    assert sum == Word(key, i);
  }

  lemma BlockOf(mem: seq<Byte>, k: nat, length: nat)
    requires k + length <= |mem| && length > 12
    ensures mem[k..k + length][12..] == mem[k + 12..k + length]
  {}

  /** The path for keys aligned to four bytes. Memory is a number of whole words. */
  method HashWords(mem: seq<Byte>, start: nat, length0: nat) returns (h: Word32)
    requires start % 4 == 0 && start + length0 <= |mem| && |mem| % 4 == 0
    ensures h == Hash(Init(length0), mem[start..start + length0])
  {
    hide Plus, Word, Load32, Hash, Last, Mix;
    var s := Init(length0);
    var k, length := start, length0;
    while length > 12
      invariant k % 4 == 0 && k + length == start + length0
      invariant Hash(s, mem[k..k + length]) == Hash(Init(length0), mem[start..start + length0])
    {
      ghost var key := mem[k..k + length];
      ReadWord(mem, k, length, 0);
      ReadWord(mem, k, length, 4);
      ReadWord(mem, k, length, 8);
      HashSteps(s, key);
      BlockOf(mem, k, length);
      s := Mix(State(Plus(s.a, Load32(mem, k)), Plus(s.b, Load32(mem, k + 4)), Plus(s.c, Load32(mem, k + 8))));
      length := length - 12;
      k := k + 12;
    }
    HashSteps(s, mem[k..k + length]);
    h := LastWords(mem, k, length, s);
  }

  /** The path for keys aligned to two bytes. */
  method HashHalves(mem: seq<Byte>, start: nat, length0: nat) returns (h: Word32)
    requires start % 2 == 0 && start + length0 <= |mem|
    ensures h == Hash(Init(length0), mem[start..start + length0])
  {
    hide Plus, Word, Pair, Hash, Last, Mix;
    var s := Init(length0);
    var k, length := start, length0;
    while length > 12
      invariant k % 2 == 0 && k + length == start + length0
      invariant Hash(s, mem[k..k + length]) == Hash(Init(length0), mem[start..start + length0])
    {
      ghost var key := mem[k..k + length];
      ReadHalves(mem, k, length, 0);
      ReadHalves(mem, k, length, 4);
      ReadHalves(mem, k, length, 8);
      HashSteps(s, key);
      BlockOf(mem, k, length);
      s := Mix(State(Plus(s.a, Pair(mem, k)), Plus(s.b, Pair(mem, k + 4)), Plus(s.c, Pair(mem, k + 8))));
      length := length - 12;
      k := k + 12;
    }
    HashSteps(s, mem[k..k + length]);
    h := LastHalves(mem, k, length, s);
  }

  /** Four bytes added one at a time, lowest first. */
  method AddBytes(key: seq<Byte>, i: nat, x0: Word32) returns (x: Word32)
    requires i + 4 <= |key|
    ensures x == Plus(x0, Word(key, i))
  {
    hide Plus;
    x := Plus(x0, key[i]);
    PlusInTwo(x0, key[i], key[i + 1] as int * 0x100);
    x := Plus(x, key[i + 1] as int * 0x100);
    PlusInTwo(x0, key[i] as int + key[i + 1] as int * 0x100, key[i + 2] as int * 0x1_0000);
    x := Plus(x, key[i + 2] as int * 0x1_0000);
    PlusInTwo(x0, key[i] as int + key[i + 1] as int * 0x100 + key[i + 2] as int * 0x1_0000,
        key[i + 3] as int * 0x100_0000);
    x := Plus(x, key[i + 3] as int * 0x100_0000);
  }

  /** The path that reads one byte at a time. */
  method HashBytes(key0: seq<Byte>) returns (h: Word32)
    ensures h == Hash(Init(|key0|), key0)
  {
    hide Plus, Word, Hash, Mix, Final;
    var s := Init(|key0|);
    var key := key0;
    while |key| > 12
      invariant Hash(s, key) == Hash(Init(|key0|), key0)
      decreases |key|
    {
      var a := AddBytes(key, 0, s.a);
      var b := AddBytes(key, 4, s.b);
      var c := AddBytes(key, 8, s.c);
      HashSteps(s, key);
      s := Mix(State(a, b, c));
      key := key[12..];
    }
    HashSteps(s, key);
    var a, b, c := s.a, s.b, s.c;
    PlusZero(b);
    PlusZero(c);
    if |key| > 8 { c := AddFrom(key, 8, c); } else { NoWord(key, 8); }
    if |key| > 4 { b := AddFrom(key, 4, b); } else { NoWord(key, 4); }
    if |key| > 0 { a := AddFrom(key, 0, a); } else { return c; }
    h := Final(State(a, b, c));
  }

  /** jenkins_hash: the same value for the same key, wherever it is in memory. */
  method JenkinsHash(mem: seq<Byte>, start: nat, length: nat) returns (h: Word32)
    requires start + length <= |mem| && |mem| % 4 == 0
    ensures h == Hash(Init(length), mem[start..start + length])
  {
    hide Hash, Init;
    if start % 4 == 0 {
      h := HashWords(mem, start, length);
    } else if start % 2 == 0 {
      h := HashHalves(mem, start, length);
    } else {
      h := HashBytes(mem[start..start + length]);
    }
  }
}

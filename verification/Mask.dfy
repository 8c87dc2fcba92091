/** Payload masking of section 5.3 of RFC 6455, done a machine word at a time.  Exclusive or is
    defined on natural numbers bit by bit, so bytes and 64-bit words share one definition. */
module Mask {
  import opened Arithmetic
  import opened Bytes

  function Xor(a: nat, b: nat): nat
    decreases a + b
  {
    if a == 0 && b == 0 then 0
    else (if a % 2 != b % 2 then 1 else 0) + 2 * Xor(a / 2, b / 2)
  }

  function Pow2(n: nat): nat { if n == 0 then 1 else 2 * Pow2(n - 1) }

  lemma {:induction false} XorBelow(a: nat, b: nat, n: nat)
    requires a < Pow2(n) && b < Pow2(n)
    ensures Xor(a, b) < Pow2(n)
    decreases n
  {
    if n > 0 {
      XorBelow(a / 2, b / 2, n - 1);
    }
  }

  lemma {:induction false} XorTwice(a: nat, k: nat)
    ensures Xor(Xor(a, k), k) == a
    decreases a + k
  {
    if a != 0 || k != 0 {
      XorTwice(a / 2, k / 2);
      var x := Xor(a, k);
      assert x / 2 == Xor(a / 2, k / 2) && x % 2 == (if a % 2 != k % 2 then 1 else 0);
    }
  }

  lemma ByteBound()
    ensures Pow2(8) == 256
  {
    assert Pow2(8) == 2 * Pow2(7) == 4 * Pow2(6) == 8 * Pow2(5) == 16 * Pow2(4);
    assert Pow2(4) == 2 * Pow2(3) == 4 * Pow2(2) == 8 * Pow2(1) == 16;
  }

  function XorByte(a: byte, k: byte): byte
  {
    ByteBound();
    XorBelow(a, k, 8);
    Xor(a, k)
  }

  lemma XorHalves(a: nat, k: nat)
    ensures Xor(a, k) == (if a % 2 != k % 2 then 1 else 0) + 2 * Xor(a / 2, k / 2)
  {
  }

  lemma XorLowBit(a: nat, h: nat, k: nat, g: nat)
    ensures Xor(a + 2 * h, k + 2 * g) == (if a % 2 != k % 2 then 1 else 0) + 2 * Xor(a / 2 + h, k / 2 + g)
  {
    assert (a + 2 * h) / 2 == a / 2 + h && (k + 2 * g) / 2 == k / 2 + g;
    assert (a + 2 * h) % 2 == a % 2 && (k + 2 * g) % 2 == k % 2;
  }

  function Shift(n: nat, h: nat): nat { if n == 0 then h else 2 * Shift(n - 1, h) }

  /** The low n bits and the rest do not interact. */
  lemma {:induction false} XorSplit(n: nat, a: nat, h: nat, k: nat, g: nat)
    requires a < Pow2(n) && k < Pow2(n)
    ensures Xor(a + Shift(n, h), k + Shift(n, g)) == Xor(a, k) + Shift(n, Xor(h, g))
    decreases n
  {
    if n == 0 {
      assert a == 0 && k == 0;
    } else {
      XorSplit(n - 1, a / 2, h, k / 2, g);
      XorLowBit(a, Shift(n - 1, h), k, Shift(n - 1, g));
      XorHalves(a, k);
    }
  }

  lemma ShiftByte(h: nat)
    ensures Shift(8, h) == 256 * h
  {
    assert Shift(8, h) == 2 * Shift(7, h) == 4 * Shift(6, h) == 8 * Shift(5, h) == 16 * Shift(4, h);
    assert Shift(4, h) == 2 * Shift(3, h) == 4 * Shift(2, h) == 8 * Shift(1, h) == 16 * h;
  }

  // ---------------------------------------------------------------- words

  datatype Order = LittleEndian | BigEndian

  function Word(order: Order, s: seq<byte>): nat { if order.LittleEndian? then FromLe(s) else FromBe(s) }

  function WordBytes(order: Order, x: nat, w: nat): (s: seq<byte>)
    ensures |s| == w
  {
    if order.LittleEndian? then LeBytes(x, w) else BeBytes(x, w)
  }

  function XorBytes(s: seq<byte>, k: seq<byte>): (r: seq<byte>)
    requires |s| == |k|
  {
    seq(|s|, i requires 0 <= i < |s| => XorByte(s[i], k[i]))
  }

  lemma XorOneByte(a: byte, h: nat, k: byte, g: nat)
    ensures Xor(a + 256 * h, k + 256 * g) == XorByte(a, k) + 256 * Xor(h, g)
  {
    ByteBound();
    ShiftByte(h);
    ShiftByte(g);
    ShiftByte(Xor(h, g));
    XorSplit(8, a, h, k, g);
  }

  lemma XorOneByteOf(x: nat, a: byte, h: nat, y: nat, k: byte, g: nat)
    requires x == a + 256 * h && y == k + 256 * g
    ensures Xor(x, y) == XorByte(a, k) + 256 * Xor(h, g)
  {
    XorOneByte(a, h, k, g);
  }

  /** One xor of two words is the xor of their bytes, in memory order, on either kind of machine. */
  lemma {:induction false} XorWordIsBytewise(order: Order, s: seq<byte>, k: seq<byte>)
    requires |s| == |k|
    ensures WordBytes(order, Xor(Word(order, s), Word(order, k)), |s|) == XorBytes(s, k)
    decreases |s|
  {
    if s == [] {
    } else if order.LittleEndian? {
      XorWordIsBytewise(order, s[1..], k[1..]);
      LeStep(s, k);
    } else {
      XorWordIsBytewise(order, s[..|s| - 1], k[..|s| - 1]);
      BeStep(s, k);
    }
  }

  lemma XorOfLe(s: seq<byte>, k: seq<byte>)
    requires |s| == |k| > 0
    ensures Xor(FromLe(s), FromLe(k)) == XorByte(s[0], k[0]) + 256 * Xor(FromLe(s[1..]), FromLe(k[1..]))
  {
    XorOneByteOf(FromLe(s), s[0], FromLe(s[1..]), FromLe(k), k[0], FromLe(k[1..]));
  }

  lemma LeStep(s: seq<byte>, k: seq<byte>)
    requires |s| == |k| > 0
    requires LeBytes(Xor(FromLe(s[1..]), FromLe(k[1..])), |s| - 1) == XorBytes(s[1..], k[1..])
    ensures LeBytes(Xor(FromLe(s), FromLe(k)), |s|) == XorBytes(s, k)
  {
    XorOfLe(s, k);
    LeBytesCons(XorByte(s[0], k[0]), Xor(FromLe(s[1..]), FromLe(k[1..])), Xor(FromLe(s), FromLe(k)), |s|);
    XorBytesCons(s, k);
  }

  lemma XorOfBe(s: seq<byte>, k: seq<byte>)
    requires |s| == |k| > 0
    ensures Xor(FromBe(s), FromBe(k))
         == XorByte(s[|s| - 1], k[|k| - 1]) + 256 * Xor(FromBe(s[..|s| - 1]), FromBe(k[..|k| - 1]))
  {
    XorOneByteOf(FromBe(s), s[|s| - 1], FromBe(s[..|s| - 1]), FromBe(k), k[|k| - 1], FromBe(k[..|k| - 1]));
  }

  lemma BeStep(s: seq<byte>, k: seq<byte>)
    requires |s| == |k| > 0
    requires BeBytes(Xor(FromBe(s[..|s| - 1]), FromBe(k[..|k| - 1])), |s| - 1) == XorBytes(s[..|s| - 1], k[..|k| - 1])
    ensures BeBytes(Xor(FromBe(s), FromBe(k)), |s|) == XorBytes(s, k)
  {
    var n := |s| - 1;
    XorOfBe(s, k);
    BeBytesSnoc(XorByte(s[n], k[n]), Xor(FromBe(s[..n]), FromBe(k[..n])), Xor(FromBe(s), FromBe(k)), |s|);
    XorBytesSnoc(s, k);
  }

  lemma XorBytesCons(s: seq<byte>, k: seq<byte>)
    requires |s| == |k| > 0
    ensures XorBytes(s, k) == [XorByte(s[0], k[0])] + XorBytes(s[1..], k[1..])
  {
  }

  lemma XorBytesSnoc(s: seq<byte>, k: seq<byte>)
    requires |s| == |k| > 0
    ensures XorBytes(s, k) == XorBytes(s[..|s| - 1], k[..|k| - 1]) + [XorByte(s[|s| - 1], k[|k| - 1])]
  {
  }

  lemma LeBytesCons(b: byte, high: nat, x: nat, w: nat)
    requires w > 0 && x == b + 256 * high
    ensures LeBytes(x, w) == [b] + LeBytes(high, w - 1)
  {
    assert x / 256 == high;
  }

  lemma BeBytesSnoc(b: byte, high: nat, x: nat, w: nat)
    requires w > 0 && x == b + 256 * high
    ensures BeBytes(x, w) == BeBytes(high, w - 1) + [b]
  {
    assert x / 256 == high;
  }

  /** key64: the key word twice, high half and low half. */
  function Key64(order: Order, key: seq<byte>): nat
    requires |key| == 4
  {
    Word(order, key) * 0x1_0000_0000 + Word(order, key)
  }

  lemma KeyTwice(order: Order, key: seq<byte>)
    requires |key| == 4
    ensures Key64(order, key) == Word(order, key + key)
  {
    var k := key + key;
    if order.LittleEndian? {
      LeFourMore(key[0], key[1], key[2], key[3], key);
      assert k == [key[0], key[1], key[2], key[3]] + key;
      LeFourMore(key[0], key[1], key[2], key[3], []);
      assert key == [key[0], key[1], key[2], key[3]] + [];
    } else {
      BeFourMore(key, key[0], key[1], key[2], key[3]);
      assert k == key + [key[0], key[1], key[2], key[3]];
      BeFourMore([], key[0], key[1], key[2], key[3]);
      assert key == [] + [key[0], key[1], key[2], key[3]];
    }
  }

  lemma LeCons(a: byte, s: seq<byte>)
    ensures FromLe([a] + s) == a + 256 * FromLe(s)
  {
    assert ([a] + s)[1..] == s;
  }

  lemma LeFourMore(a: byte, b: byte, c: byte, d: byte, s: seq<byte>)
    ensures FromLe([a, b, c, d] + s) == a + 256 * b + 65536 * c + 16777216 * d + 0x1_0000_0000 * FromLe(s)
  {
    LeCons(d, s);
    LeCons(c, [d] + s);
    LeCons(b, [c] + ([d] + s));
    LeCons(a, [b] + ([c] + ([d] + s)));
    assert [a, b, c, d] + s == [a] + ([b] + ([c] + ([d] + s)));
  }

  lemma BeSnoc(s: seq<byte>, a: byte)
    ensures FromBe(s + [a]) == 256 * FromBe(s) + a
  {
    assert (s + [a])[..|s|] == s;
  }

  lemma BeFourMore(s: seq<byte>, a: byte, b: byte, c: byte, d: byte)
    ensures FromBe(s + [a, b, c, d]) == 0x1_0000_0000 * FromBe(s) + 16777216 * a + 65536 * b + 256 * c + d
  {
    BeSnoc(s, a);
    BeSnoc(s + [a], b);
    BeSnoc(s + [a] + [b], c);
    BeSnoc(s + [a] + [b] + [c], d);
    assert s + [a, b, c, d] == s + [a] + [b] + [c] + [d];
  }

  // ---------------------------------------------------------------- the loops

  /** Section 5.3 of RFC 6455: octet i is combined with octet i mod 4 of the key. */
  function Unmask(s: seq<byte>, key: seq<byte>): (r: seq<byte>)
    requires |key| == 4
    ensures |r| == |s|
  {
    seq(|s|, i requires 0 <= i < |s| => XorByte(s[i], key[i % 4]))
  }

  lemma UnmaskTwice(s: seq<byte>, key: seq<byte>)
    requires |key| == 4
    ensures Unmask(Unmask(s, key), key) == s
  {
    forall i | 0 <= i < |s| ensures Unmask(Unmask(s, key), key)[i] == s[i] {
      XorTwice(s[i], key[i % 4]);
    }
  }

  lemma UnmaskLocal(s: seq<byte>, t: seq<byte>, key: seq<byte>, lo: nat, hi: nat)
    requires |key| == 4 && |s| == |t| && lo <= hi <= |s| && s[lo..hi] == t[lo..hi]
    ensures Unmask(s, key)[lo..hi] == Unmask(t, key)[lo..hi]
  {
    forall i | lo <= i < hi ensures Unmask(s, key)[i] == Unmask(t, key)[i] {
      assert s[i] == s[lo..hi][i - lo] == t[i];
    }
  }

  /** The bytes before off unmasked, the rest as they were. */
  function DoneUpTo(was: seq<byte>, key: seq<byte>, off: nat): seq<byte>
    requires |key| == 4 && off <= |was|
  {
    Unmask(was, key)[..off] + was[off..]
  }

  lemma DoneMore(was: seq<byte>, key: seq<byte>, off: nat, to: nat)
    requires |key| == 4 && off <= to <= |was|
    ensures var s := DoneUpTo(was, key, off); s[..off] + Unmask(s, key)[off..to] + s[to..] == DoneUpTo(was, key, to)
  {
    var s := DoneUpTo(was, key, off);
    assert s[off..to] == was[off..to];
    UnmaskLocal(s, was, key, off, to);
  }

  method XorWordAt(b: array<byte>, off: nat, key: seq<byte>, key64: nat, order: Order)
    requires |key| == 4 && key64 == Key64(order, key) && off + 8 <= b.Length && off % 8 == 0
    modifies b
    ensures b[..] == old(b[..off]) + Unmask(old(b[..]), key)[off..off + 8] + old(b[off + 8..])
  {
    ghost var was := b[..];
    ghost var word := b[off..off + 8];
    var stored := WordBytes(order, Xor(Word(order, b[off..off + 8]), key64), 8);
    KeyTwice(order, key);
    XorWordIsBytewise(order, word, key + key);
    XorBytesOfUnmask(was, key, off);
    forall i | 0 <= i < 8 {
      b[off + i] := stored[i];
    }
    assert b[off..off + 8] == stored;
    assert b[..] == b[..off] + b[off..off + 8] + b[off + 8..];
  }

  lemma XorBytesOfUnmask(was: seq<byte>, key: seq<byte>, off: nat)
    requires |key| == 4 && off + 8 <= |was| && off % 8 == 0
    ensures XorBytes(was[off..off + 8], key + key) == Unmask(was, key)[off..off + 8]
  {
    forall i | off <= i < off + 8 ensures XorBytes(was[off..off + 8], key + key)[i - off] == Unmask(was, key)[i] {
      assert (key + key)[i - off] == key[i % 4];
    }
  }

  /** The unrolled body of the 64-byte loop. */
  method XorEight(b: array<byte>, off: nat, key: seq<byte>, key64: nat, order: Order, ghost was: seq<byte>)
    requires |key| == 4 && key64 == Key64(order, key) && off + 64 <= b.Length == |was| && off % 8 == 0
    requires b[..] == DoneUpTo(was, key, off)
    modifies b
    ensures b[..] == DoneUpTo(was, key, off + 64)
  {
    XorNext(b, off, key, key64, order, was);
    XorNext(b, off + 8, key, key64, order, was);
    XorNext(b, off + 16, key, key64, order, was);
    XorNext(b, off + 24, key, key64, order, was);
    XorNext(b, off + 32, key, key64, order, was);
    XorNext(b, off + 40, key, key64, order, was);
    XorNext(b, off + 48, key, key64, order, was);
    XorNext(b, off + 56, key, key64, order, was);
  }

  method XorNext(b: array<byte>, off: nat, key: seq<byte>, key64: nat, order: Order, ghost was: seq<byte>)
    requires |key| == 4 && key64 == Key64(order, key) && off + 8 <= b.Length == |was| && off % 8 == 0
    requires b[..] == DoneUpTo(was, key, off)
    modifies b
    ensures b[..] == DoneUpTo(was, key, off + 8)
  {
    XorWordAt(b, off, key, key64, order);
    DoneMore(was, key, off, off + 8);
    assert b[..] == DoneUpTo(was, key, off)[..off] + Unmask(DoneUpTo(was, key, off), key)[off..off + 8] + DoneUpTo(was, key, off)[off + 8..];
  }

  lemma NothingDone(was: seq<byte>, key: seq<byte>)
    requires |key| == 4
    ensures DoneUpTo(was, key, 0) == was && DoneUpTo(was, key, |was|) == Unmask(was, key)
  {
  }

  lemma StillAligned(off: nat)
    requires off % 8 == 0
    ensures (off + 8) % 8 == 0 && (off + 64) % 8 == 0
  {
  }

  method MaskXor(b: array<byte>, key: seq<byte>, order: Order)
    requires |key| == 4
    modifies b
    ensures b[..] == Unmask(old(b[..]), key)
  {
    ghost var was := b[..];
    NothingDone(was, key);
    var key64 := Key64(order, key);
    var off := 0;
    while b.Length - off >= 64
      invariant off % 8 == 0 && off <= b.Length && b[..] == DoneUpTo(was, key, off)
    {
      XorEight(b, off, key, key64, order, was);
      StillAligned(off);
      off := off + 64;
    }
    while b.Length - off >= 8
      invariant off % 8 == 0 && off <= b.Length && b[..] == DoneUpTo(was, key, off)
    {
      XorNext(b, off, key, key64, order, was);
      StillAligned(off);
      off := off + 8;
    }
    XorTail(b, off, key, was);
  }

  /** The last bytes, one at a time. */
  method XorTail(b: array<byte>, off: nat, key: seq<byte>, ghost was: seq<byte>)
    requires |key| == 4 && off <= b.Length == |was| && off % 8 == 0
    requires b[..] == DoneUpTo(was, key, off)
    modifies b
    ensures b[..] == DoneUpTo(was, key, |was|)
  {
    var i := 0;
    assert off + i == off;
    while i < b.Length - off
      invariant off + i <= b.Length && b[..] == DoneUpTo(was, key, off + i)
    {
      SameKeyByte(off, i);
      XorByteAt(b, off + i, key, i % 4, was);
      i := i + 1;
    }
  }

  lemma SameKeyByte(off: nat, i: nat)
    requires off % 8 == 0
    ensures (off + i) % 4 == i % 4
  {
    DivMod(off + i, 4, 2 * (off / 8) + i / 4, i % 4);
  }

  method XorByteAt(b: array<byte>, at: nat, key: seq<byte>, k: nat, ghost was: seq<byte>)
    requires |key| == 4 && at < b.Length == |was| && k == at % 4
    requires b[..] == DoneUpTo(was, key, at)
    modifies b
    ensures b[..] == DoneUpTo(was, key, at + 1)
  {
    DoneMore(was, key, at, at + 1);
    ghost var s := b[..];
    assert Unmask(s, key)[at..at + 1] == [XorByte(s[at], key[k])];
    b[at] := XorByte(b[at], key[k]);
    assert b[..] == s[..at] + [XorByte(s[at], key[k])] + s[at + 1..];
  }
}

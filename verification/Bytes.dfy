/** Bytes and the fixed-width integer encodings of the wire formats. */
module Bytes {
  type byte = x: int | 0 <= x < 256

  /** byte(x) of a Go integer conversion. */
  function Low(x: nat): byte { x % 256 }

  function Concat<T>(parts: seq<seq<T>>): seq<T>
  {
    if parts == [] then [] else parts[0] + Concat(parts[1..])
  }

  lemma {:induction false} ConcatAppend<T>(a: seq<seq<T>>, b: seq<seq<T>>)
    ensures Concat(a + b) == Concat(a) + Concat(b)
    decreases |a|
  {
    if a == [] {
      assert a + b == b;
    } else {
      assert (a + b)[0] == a[0] && (a + b)[1..] == a[1..] + b;
      ConcatAppend(a[1..], b);
    }
  }

  lemma ConcatSnoc<T>(a: seq<seq<T>>, x: seq<T>)
    ensures Concat(a + [x]) == Concat(a) + x
  {
    ConcatAppend(a, [x]);
    assert Concat([x]) == x + Concat([]) == x;
  }

  lemma Associate<T>(x: seq<T>, y: seq<T>, z: seq<T>)
    ensures x + (y + z) == (x + y) + z && x + y <= (x + y) + z
  {
  }

  /** Moving leading bytes from what is pending to what is out changes nothing in total. */
  lemma MovePrefix(total: seq<byte>, out: seq<byte>, rest: seq<byte>, n: nat, behind: seq<byte>)
    requires n <= |rest| && total == out + rest + behind
    ensures total == out + rest[..n] + rest[n..] + behind
    ensures out + rest[..n] <= total
  {
    assert rest == rest[..n] + rest[n..];
    assert total == (out + rest[..n]) + (rest[n..] + behind);
  }

  // ---------------------------------------------------------------- fixed-width integers

  function Pow256(w: nat): (p: nat)
    ensures p > 0
  {
    if w == 0 then 1 else 256 * Pow256(w - 1)
  }

  lemma PowTable()
    ensures Pow256(0) == 1 && Pow256(1) == 0x100 && Pow256(2) == 0x1_0000 && Pow256(3) == 0x100_0000
    ensures Pow256(4) == 0x1_0000_0000 && Pow256(5) == 0x100_0000_0000
    ensures Pow256(6) == 0x1_0000_0000_0000 && Pow256(7) == 0x100_0000_0000_0000
    ensures Pow256(8) == 0x1_0000_0000_0000_0000
  {
    assert Pow256(3) == 256 * Pow256(2) == 256 * (256 * Pow256(1));
    assert Pow256(4) == 256 * Pow256(3);
    assert Pow256(7) == 256 * Pow256(6) == 256 * (256 * Pow256(5)) == 256 * (256 * (256 * Pow256(4)));
    assert Pow256(8) == 256 * Pow256(7);
  }

  /** The w low bytes of n, least significant first. */
  function LeBytes(n: nat, w: nat): (s: seq<byte>)
    ensures |s| == w
  {
    if w == 0 then [] else [Low(n)] + LeBytes(n / 256, w - 1)
  }

  function FromLe(s: seq<byte>): nat
  {
    if s == [] then 0 else s[0] + 256 * FromLe(s[1..])
  }

  /** The w low bytes of n, most significant first. */
  function BeBytes(n: nat, w: nat): (s: seq<byte>)
    ensures |s| == w
  {
    if w == 0 then [] else BeBytes(n / 256, w - 1) + [Low(n)]
  }

  function FromBe(s: seq<byte>): nat
  {
    if s == [] then 0 else 256 * FromBe(s[..|s| - 1]) + s[|s| - 1]
  }

  lemma {:induction false} FromLeBytes(n: nat, w: nat)
    requires n < Pow256(w)
    ensures FromLe(LeBytes(n, w)) == n
    decreases w
  {
    if w > 0 {
      FromLeBytes(n / 256, w - 1);
      assert LeBytes(n, w)[1..] == LeBytes(n / 256, w - 1);
    }
  }

  lemma {:induction false} LeBytesFrom(s: seq<byte>)
    ensures FromLe(s) < Pow256(|s|) && LeBytes(FromLe(s), |s|) == s
    decreases |s|
  {
    if s != [] {
      LeBytesFrom(s[1..]);
      assert FromLe(s) / 256 == FromLe(s[1..]) && Low(FromLe(s)) == s[0];
      assert s == [s[0]] + s[1..];
    }
  }

  lemma {:induction false} FromBeBytes(n: nat, w: nat)
    requires n < Pow256(w)
    ensures FromBe(BeBytes(n, w)) == n
    decreases w
  {
    if w > 0 {
      FromBeBytes(n / 256, w - 1);
      assert BeBytes(n, w)[..w - 1] == BeBytes(n / 256, w - 1);
    }
  }
}

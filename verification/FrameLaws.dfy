/** What the read loop does with each kind of client frame, stated on the bytes of the frame, whatever
    follows them: sections 5.2 to 5.5 of RFC 6455 and the relay's own limits. */
module FrameLaws {
  import opened Bytes
  import opened Mask
  import opened Frames
  import opened FrameCodec

  /** A client frame as bytes: the length may be written in any of the three forms that hold it. */
  datatype Wire = Wire(fin: bool, opcode: nat, len: seq<byte>, key: seq<byte>, payload: seq<byte>)

  predicate LengthOk(len: seq<byte>, n: nat)
  {
    && |len| >= 1 && Masked(len[0]) && |len| == 1 + ExtBytes(len[0] % 128)
    && (len[0] % 128 <= 125 ==> len[0] % 128 == n)
    && (len[0] % 128 > 125 ==> FromBe(len[1..]) == n)
    && (len[0] % 128 == 127 ==> len[1] < 128)
  }

  predicate Legal(w: Wire) { w.opcode < 16 && |w.key| == 4 && LengthOk(w.len, |w.payload|) }

  function FirstByte(w: Wire): byte
    requires w.opcode < 16
  {
    (if w.fin then 128 else 0) + w.opcode
  }

  function WireHeader(w: Wire): seq<byte>
    requires w.opcode < 16
  {
    [FirstByte(w)] + w.len + w.key
  }

  function WireBytes(w: Wire): seq<byte>
    requires Legal(w)
  {
    WireHeader(w) + Unmask(w.payload, w.key)
  }

  /** The three forms of a length: one byte, two more, or eight more with the top bit clear. */
  lemma LengthForms(n: nat)
    ensures n <= 125 ==> LengthOk([128 + n], n)
    ensures n < 0x1_0000 ==> LengthOk([254, Low(n / 256), Low(n)], n)
    ensures n < 0x8000_0000_0000_0000 ==> LengthOk([255] + BeBytes(n, 8), n)
  {
    if n < 0x1_0000 {
      TwoByteLength(n);
    }
    if n < 0x8000_0000_0000_0000 {
      EightByteLength(n);
    }
  }

  lemma TwoByteLength(n: nat)
    requires n < 0x1_0000
    ensures LengthOk([254, Low(n / 256), Low(n)], n)
  {
    PowTable();
    FromBeBytes(n, 2);
    BeTwoBytes(n);
    assert [254, Low(n / 256), Low(n)][1..] == BeBytes(n, 2);
  }

  lemma EightByteLength(n: nat)
    requires n < 0x8000_0000_0000_0000
    ensures LengthOk([255] + BeBytes(n, 8), n)
  {
    PowTable();
    FromBeBytes(n, 8);
    TopBitClear(n);
    assert ([255] + BeBytes(n, 8))[1..] == BeBytes(n, 8);
  }

  lemma HeaderReads(w: Wire)
    requires Legal(w)
    ensures var hdr := WireHeader(w);
      && |hdr| == HeaderLen(hdr[1]) && hdr[0] == FirstByte(w) && hdr[1] == w.len[0]
      && PayloadLen(hdr) == |w.payload| && hdr[|hdr| - 4..] == w.key
      && !Reserved(hdr[0]) && Masked(hdr[1]) && Fin(hdr[0]) == w.fin && hdr[0] % 16 == w.opcode
      && (hdr[1] % 128 == 127 ==> hdr[2] < 128)
  {
    var hdr := WireHeader(w);
    assert hdr[1..1 + |w.len|] == w.len;
    assert hdr[1] == w.len[0];
    assert hdr[2..2 + ExtBytes(hdr[1] % 128)] == w.len[1..];
  }

  predicate BadControl(w: Wire) { w.opcode >= 8 && (!w.fin || |w.payload| > 125) }

  lemma WireParses(w: Wire, rest: seq<byte>, max: nat)
    requires Legal(w)
    ensures ParseFrame(WireBytes(w) + rest, max)
         == if BadControl(w) then Reject(1002)
            else if |w.payload| > max then Reject(1009)
            else Frame(w.fin, w.opcode, w.payload, rest)
  {
    var hdr, n := WireHeader(w), |w.payload|;
    var input, h := WireBytes(w) + rest, |hdr|;
    HeaderReads(w);
    WireSlices(hdr, Unmask(w.payload, w.key), rest);
    UnmaskTwice(w.payload, w.key);
  }

  lemma WireSlices(hdr: seq<byte>, body: seq<byte>, rest: seq<byte>)
    requires |hdr| >= 6
    ensures var input, h := hdr + body + rest, |hdr|;
      && input[0] == hdr[0] && input[1] == hdr[1] && input[..h] == hdr && input[h - 4..h] == hdr[h - 4..]
      && input[h..h + |body|] == body && input[h + |body|..] == rest
  {
  }

  lemma WireRuns(w: Wire, rest: seq<byte>, st: Assembly, max: nat)
    requires Legal(w) && !BadControl(w) && |w.payload| <= max
    ensures var o := OnFrame(st, w.fin, w.opcode, w.payload, max);
      Run(WireBytes(w) + rest, st, max) == if o.stop then o.events else o.events + Run(rest, o.next, max)
  {
    WireParses(w, rest, max);
  }

  function Word16(high: nat, low: nat): nat { 256 * high + low }

  lemma TwoBytes(p: seq<byte>)
    requires |p| == 2
    ensures FromBe(p) == Word16(p[0], p[1])
  {
    var first := p[..1];
    assert FromBe(first) == p[0];
  }

  // ---------------------------------------------------------------- frames that end the connection

  /** A close frame is answered with one close frame and the loop ends: the client's code, 1000 when it
      gave none, 1002 when it gave half of one. */
  lemma CloseIsAnswered(w: Wire, rest: seq<byte>, st: Assembly, max: nat)
    requires Legal(w) && w.opcode == 8 && w.fin && |w.payload| <= 125 && |w.payload| <= max
    ensures var p := w.payload;
      Run(WireBytes(w) + rest, st, max)
      == [Close(if |p| == 0 then 1000 else if |p| == 1 then 1002 else Word16(p[0], p[1]))]
  {
    WireRuns(w, rest, st, max);
    if |w.payload| >= 2 {
      TwoBytes(w.payload[..2]);
    }
  }

  lemma TextIsRefused(w: Wire, rest: seq<byte>, st: Assembly, max: nat)
    requires Legal(w) && w.opcode == 1 && |w.payload| <= max
    ensures Run(WireBytes(w) + rest, st, max) == [Close(1003)]
  {
    WireRuns(w, rest, st, max);
  }

  lemma UnknownOpcodeIsRefused(w: Wire, rest: seq<byte>, st: Assembly, max: nat)
    requires Legal(w) && |w.payload| <= max && (3 <= w.opcode <= 7 || w.opcode >= 11)
    ensures Run(WireBytes(w) + rest, st, max) == [Close(1002)]
  {
    WireParses(w, rest, max);
  }

  lemma BadControlIsRefused(w: Wire, rest: seq<byte>, st: Assembly, max: nat)
    requires Legal(w) && w.opcode >= 8 && (!w.fin || |w.payload| > 125)
    ensures Run(WireBytes(w) + rest, st, max) == [Close(1002)]
  {
    WireParses(w, rest, max);
  }

  lemma BigFrameIsRefused(w: Wire, rest: seq<byte>, st: Assembly, max: nat)
    requires Legal(w) && w.opcode < 8 && |w.payload| > max
    ensures Run(WireBytes(w) + rest, st, max) == [Close(1009)]
  {
    WireParses(w, rest, max);
  }

  /** A control frame within its own limit but over the relay's. */
  lemma BigControlIsRefused(w: Wire, rest: seq<byte>, st: Assembly, max: nat)
    requires Legal(w) && w.opcode >= 8 && w.fin && max < |w.payload| <= 125
    ensures Run(WireBytes(w) + rest, st, max) == [Close(1009)]
  {
    WireParses(w, rest, max);
  }

  lemma StrayContinuationIsRefused(w: Wire, rest: seq<byte>, max: nat)
    requires Legal(w) && w.opcode == 0 && |w.payload| <= max
    ensures Run(WireBytes(w) + rest, NO_MESSAGE, max) == [Close(1002)]
  {
    WireRuns(w, rest, NO_MESSAGE, max);
  }

  lemma NestedBinaryIsRefused(w: Wire, rest: seq<byte>, data: seq<byte>, max: nat)
    requires Legal(w) && w.opcode == 2 && |w.payload| <= max
    ensures Run(WireBytes(w) + rest, Assembly(2, data), max) == [Close(1002)]
  {
    WireRuns(w, rest, Assembly(2, data), max);
  }

  /** Any of the three reserved bits, whatever else the frame says. */
  lemma ReservedBitIsRefused(fin: bool, rsv: nat, opcode: nat, b1: byte, rest: seq<byte>, st: Assembly, max: nat)
    requires 0 < rsv < 8 && opcode < 16
    ensures Run([(if fin then 128 else 0) + 16 * rsv + opcode, b1] + rest, st, max) == [Close(1002)]
  {
    var b0: byte := (if fin then 128 else 0) + 16 * rsv + opcode;
    assert (b0 / 16) % 8 == rsv;
    assert ([b0, b1] + rest)[0] == b0;
  }

  lemma UnmaskedIsRefused(b0: byte, b1: byte, rest: seq<byte>, st: Assembly, max: nat)
    requires b1 < 128
    ensures Run([b0, b1] + rest, st, max) == [Close(1002)]
  {
    assert ([b0, b1] + rest)[1] == b1;
  }

  /** An eight-byte length with its top bit set. */
  lemma HugeLengthIsRefused(fin: bool, opcode: nat, ext: seq<byte>, rest: seq<byte>, st: Assembly, max: nat)
    requires opcode < 16 && |ext| == 12 && ext[0] >= 128
    ensures Run([(if fin then 128 else 0) + opcode, 255] + ext + rest, st, max) == [Close(1002)]
  {
    var b0: byte := (if fin then 128 else 0) + opcode;
    var input := [b0, 255] + ext + rest;
    assert input[0] == b0 && input[1] == 255 && input[..14] == [b0, 255] + ext;
    assert input[..14][2] == ext[0] && !Reserved(b0);
  }

  // ---------------------------------------------------------------- frames after which it goes on

  lemma PingIsAnswered(w: Wire, rest: seq<byte>, st: Assembly, max: nat)
    requires Legal(w) && w.opcode == 9 && w.fin && |w.payload| <= 125 && |w.payload| <= max
    ensures Run(WireBytes(w) + rest, st, max) == [Pong(w.payload)] + Run(rest, st, max)
  {
    WireRuns(w, rest, st, max);
  }

  lemma PongIsIgnored(w: Wire, rest: seq<byte>, st: Assembly, max: nat)
    requires Legal(w) && w.opcode == 10 && w.fin && |w.payload| <= 125 && |w.payload| <= max
    ensures Run(WireBytes(w) + rest, st, max) == Run(rest, st, max)
  {
    WireRuns(w, rest, st, max);
    assert [] + Run(rest, st, max) == Run(rest, st, max);
  }

  lemma BinaryIsDelivered(w: Wire, rest: seq<byte>, max: nat)
    requires Legal(w) && w.opcode == 2 && w.fin && |w.payload| <= max
    ensures Run(WireBytes(w) + rest, NO_MESSAGE, max) == [Deliver(w.payload)] + Run(rest, NO_MESSAGE, max)
  {
    WireRuns(w, rest, NO_MESSAGE, max);
  }

  /** An input that ends inside an acceptable frame ends the loop without a word. */
  lemma CutFrameIsSilent(w: Wire, k: nat, st: Assembly, max: nat)
    requires Legal(w) && !BadControl(w) && |w.payload| <= max && k < |WireBytes(w)|
    ensures Run(WireBytes(w)[..k], st, max) == []
  {
    var hdr := WireHeader(w);
    var input, h := WireBytes(w)[..k], |hdr|;
    HeaderReads(w);
    if k >= 2 {
      assert input[0] == hdr[0] && input[1] == hdr[1];
      if k >= h {
        assert input[..h] == hdr;
      }
    }
  }
}

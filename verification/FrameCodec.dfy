/** Frames and packets the server sends: the in-place headroom encoder of the two read loops, the
    small packet builders and sendRawFrame all write the same frame format, and a client reads back
    exactly the packets that were sent. */
module FrameCodec {
  import opened Arithmetic
  import opened Bytes
  import opened Frames
  import opened Wrappers

  const PACKET_DATA: byte := 2
  const PACKET_CONTINUE: byte := 3
  const PACKET_CLOSE: byte := 4

  /** A Wisp packet: type, little-endian stream id, payload. */
  function Packet(kind: byte, streamId: nat, payload: seq<byte>): (p: seq<byte>)
    requires streamId < 0x1_0000_0000
    ensures |p| == 5 + |payload|
  {
    [kind] + LeBytes(streamId, 4) + payload
  }

  function FrameLength(n: nat): seq<byte>
    requires n < 0x8000_0000_0000_0000
  {
    if n <= 125 then [n] else if n <= 65535 then [126] + BeBytes(n, 2) else [127] + BeBytes(n, 8)
  }

  /** One unmasked, final, binary frame. */
  function RawFrame(packet: seq<byte>): seq<byte>
    requires |packet| < 0x8000_0000_0000_0000
  {
    [0x82] + FrameLength(|packet|) + packet
  }

  // ---------------------------------------------------------------- shifts

  lemma BeTwoBytes(n: nat)
    ensures BeBytes(n, 2) == [Low(n / 256), Low(n)]
  {
    assert BeBytes(n / 256, 1) == BeBytes(n / 256 / 256, 0) + [Low(n / 256)] == [Low(n / 256)];
  }

  /** The w bytes a shift of 8 bits at a time picks out. */
  lemma {:induction false} BeByteAt(n: nat, w: nat, i: nat)
    requires i < w
    ensures BeBytes(n, w)[i] == Low(n / Pow256(w - 1 - i))
    decreases w
  {
    if i == w - 1 {
      assert Pow256(0) == 1;
    } else {
      BeByteAt(n / 256, w - 1, i);
      DivTwice(n, 256, Pow256(w - 2 - i));
    }
  }

  lemma BeEightBytes(n: nat)
    ensures BeBytes(n, 8) == [
      Low(n / 0x100_0000_0000_0000), Low(n / 0x1_0000_0000_0000), Low(n / 0x100_0000_0000), Low(n / 0x1_0000_0000),
      Low(n / 0x100_0000), Low(n / 0x1_0000), Low(n / 0x100), Low(n)]
  {
    PowTable();
    BeByteAt(n, 8, 0);
    BeByteAt(n, 8, 1);
    BeByteAt(n, 8, 2);
    BeByteAt(n, 8, 3);
    BeByteAt(n, 8, 4);
    BeByteAt(n, 8, 5);
    BeByteAt(n, 8, 6);
    BeByteAt(n, 8, 7);
  }

  lemma {:induction false} LeByteAt(n: nat, w: nat, i: nat)
    requires i < w
    ensures LeBytes(n, w)[i] == Low(n / Pow256(i))
    decreases w
  {
    if i == 0 {
      assert Pow256(0) == 1;
    } else {
      LeByteAt(n / 256, w - 1, i - 1);
      DivTwice(n, 256, Pow256(i - 1));
    }
  }

  lemma LeFourBytes(n: nat)
    ensures LeBytes(n, 4) == [Low(n), Low(n / 0x100), Low(n / 0x1_0000), Low(n / 0x100_0000)]
  {
    PowTable();
    LeByteAt(n, 4, 0);
    LeByteAt(n, 4, 1);
    LeByteAt(n, 4, 2);
    LeByteAt(n, 4, 3);
  }

  // ---------------------------------------------------------------- the encoders

  const MAX_HEADER: nat := 15

  function FrameStart(total: nat): nat
  {
    if total <= 125 then MAX_HEADER - 7 else if total <= 65535 then MAX_HEADER - 9 else 0
  }

  /** Writes the frame and packet headers into the headroom in front of n data bytes read at offset
      15; the frame is then one slice of the buffer. */
  method FrameInPlace(buf: array<byte>, n: nat, streamId: nat) returns (frameStart: nat)
    requires MAX_HEADER + n <= buf.Length && 5 + n < 0x8000_0000_0000_0000 && streamId < 0x1_0000_0000
    modifies buf
    ensures frameStart <= MAX_HEADER
    ensures buf[frameStart..MAX_HEADER + n] == RawFrame(Packet(PACKET_DATA, streamId, old(buf[MAX_HEADER..])[..n]))
    ensures buf[MAX_HEADER..] == old(buf[MAX_HEADER..])
  {
    ghost var tail := buf[MAX_HEADER..];
    var total := 5 + n;
    frameStart := WriteLength(buf, total);
    assert buf[MAX_HEADER..] == buf[MAX_HEADER - 5..][5..] == tail;
    ghost var front := buf[frameStart..MAX_HEADER - 5];
    assert front == buf[..MAX_HEADER - 5][frameStart..];
    WritePacketHeader(buf, streamId);
    assert buf[frameStart..MAX_HEADER - 5] == buf[..MAX_HEADER - 5][frameStart..] == front;
    InPlaceIsRaw(buf[..], frameStart, n, streamId, tail);
  }

  lemma InPlaceIsRaw(buf: seq<byte>, frameStart: nat, n: nat, streamId: nat, tail: seq<byte>)
    requires MAX_HEADER + n <= |buf| && 5 + n < 0x8000_0000_0000_0000 && streamId < 0x1_0000_0000 && frameStart <= MAX_HEADER - 5
    requires buf[frameStart..MAX_HEADER - 5] == [0x82] + FrameLength(5 + n)
    requires buf[MAX_HEADER - 5..MAX_HEADER] == [PACKET_DATA] + LeBytes(streamId, 4)
    requires buf[MAX_HEADER..] == tail
    ensures buf[frameStart..MAX_HEADER + n] == RawFrame(Packet(PACKET_DATA, streamId, tail[..n]))
  {
    ThreeSlices(buf, frameStart, MAX_HEADER - 5, MAX_HEADER, n);
    Associate([0x82], FrameLength(5 + n), buf[MAX_HEADER - 5..MAX_HEADER] + tail[..n]);
    Associate([0x82] + FrameLength(5 + n), buf[MAX_HEADER - 5..MAX_HEADER], tail[..n]);
  }

  lemma ThreeSlices(s: seq<byte>, i: nat, j: nat, k: nat, n: nat)
    requires i <= j <= k && k + n <= |s|
    ensures s[i..k + n] == s[i..j] + s[j..k] + s[k..][..n]
  {
  }

  method WriteLength(buf: array<byte>, total: nat) returns (frameStart: nat)
    requires MAX_HEADER <= buf.Length && total < 0x8000_0000_0000_0000
    modifies buf
    ensures frameStart == FrameStart(total)
    ensures buf[frameStart..MAX_HEADER - 5] == [0x82] + FrameLength(total)
    ensures buf[MAX_HEADER - 5..] == old(buf[MAX_HEADER - 5..])
  {
    if total <= 125 {
      frameStart := MAX_HEADER - 7;
      buf[frameStart] := 0x82;
      buf[frameStart + 1] := Low(total);
      assert buf[frameStart..MAX_HEADER - 5] == [0x82, total];
    } else if total <= 65535 {
      frameStart := MAX_HEADER - 9;
      buf[frameStart] := 0x82;
      buf[frameStart + 1] := 126;
      buf[frameStart + 2] := Low(total / 256);
      buf[frameStart + 3] := Low(total);
      BeTwoBytes(total);
      assert buf[frameStart..MAX_HEADER - 5] == [0x82] + ([126] + [Low(total / 256), Low(total)]);
    } else {
      frameStart := WriteLongLength(buf, total);
    }
  }

  method WriteLongLength(buf: array<byte>, total: nat) returns (frameStart: nat)
    requires MAX_HEADER <= buf.Length
    modifies buf
    ensures frameStart == 0 && buf[..MAX_HEADER - 5] == [0x82] + ([127] + BeBytes(total, 8))
    ensures buf[MAX_HEADER - 5..] == old(buf[MAX_HEADER - 5..])
  {
    frameStart := 0;
    buf[0] := 0x82;
    buf[1] := 127;
    buf[2] := Low(total / 0x100_0000_0000_0000);
    buf[3] := Low(total / 0x1_0000_0000_0000);
    buf[4] := Low(total / 0x100_0000_0000);
    buf[5] := Low(total / 0x1_0000_0000);
    buf[6] := Low(total / 0x100_0000);
    buf[7] := Low(total / 0x1_0000);
    buf[8] := Low(total / 0x100);
    buf[9] := Low(total);
    BeEightBytes(total);
    assert buf[2..10] == BeBytes(total, 8);
    assert buf[..10] == [buf[0]] + ([buf[1]] + buf[2..10]);
  }

  method WritePacketHeader(buf: array<byte>, streamId: nat)
    requires MAX_HEADER <= buf.Length
    modifies buf
    ensures buf[MAX_HEADER - 5..MAX_HEADER] == [PACKET_DATA] + LeBytes(streamId, 4)
    ensures buf[..MAX_HEADER - 5] == old(buf[..MAX_HEADER - 5]) && buf[MAX_HEADER..] == old(buf[MAX_HEADER..])
  {
    var at := MAX_HEADER - 5;
    buf[at] := PACKET_DATA;
    buf[at + 1] := Low(streamId);
    buf[at + 2] := Low(streamId / 0x100);
    buf[at + 3] := Low(streamId / 0x1_0000);
    buf[at + 4] := Low(streamId / 0x100_0000);
    LeFourBytes(streamId);
    assert buf[at..at + 5] == [buf[at]] + buf[at + 1..at + 5];
  }

  /** sendRawFrame: a fresh buffer with the header and a copy of the packet. */
  method SendRawFrame(packet: seq<byte>) returns (frame: array<byte>)
    requires |packet| < 0x8000_0000_0000_0000
    ensures fresh(frame) && frame[..] == RawFrame(packet)
  {
    var total := |packet|;
    if total <= 125 {
      frame := new byte[2 + total](_ => 0);
      frame[0] := 0x82;
      frame[1] := Low(total);
      CopyTo(frame, 2, packet);
      assert frame[..] == [frame[0]] + [frame[1]] + frame[2..];
    } else if total <= 65535 {
      frame := new byte[4 + total](_ => 0);
      frame[0] := 0x82;
      frame[1] := 126;
      frame[2] := Low(total / 256);
      frame[3] := Low(total);
      BeTwoBytes(total);
      CopyTo(frame, 4, packet);
      assert frame[..] == [frame[0]] + ([frame[1]] + [frame[2], frame[3]]) + frame[4..];
    } else {
      frame := new byte[10 + total](_ => 0);
      frame[0] := 0x82;
      frame[1] := 127;
      CopyTo8(frame, BeBytes(total, 8));
      CopyTo(frame, 10, packet);
      assert frame[..] == [frame[0]] + ([frame[1]] + frame[2..10]) + frame[10..];
    }
  }

  method CopyTo(dst: array<byte>, at: nat, src: seq<byte>)
    requires at + |src| == dst.Length
    modifies dst
    ensures dst[..at] == old(dst[..at]) && dst[at..] == src
  {
    forall i | 0 <= i < |src| {
      dst[at + i] := src[i];
    }
  }

  method CopyTo8(dst: array<byte>, src: seq<byte>)
    requires |src| == 8 && dst.Length >= 10
    modifies dst
    ensures dst[..2] == old(dst[..2]) && dst[2..10] == src
  {
    forall i | 0 <= i < 8 {
      dst[2 + i] := src[i];
    }
  }

  /** sendPacket: CONTINUE for a stream, carrying the buffer size. */
  method BuildContinue(streamId: nat, remaining: nat) returns (frame: array<byte>)
    requires streamId < 0x1_0000_0000 && remaining < 0x1_0000_0000
    ensures fresh(frame) && frame[..] == RawFrame(Packet(PACKET_CONTINUE, streamId, LeBytes(remaining, 4)))
    ensures frame[..] == [0x82, 9, 3] + LeBytes(streamId, 4) + LeBytes(remaining, 4)
  {
    frame := new byte[11](_ => 0);
    frame[0], frame[1], frame[2] := 0x82, 9, PACKET_CONTINUE;
    frame[3], frame[4] := Low(streamId), Low(streamId / 0x100);
    frame[5], frame[6] := Low(streamId / 0x1_0000), Low(streamId / 0x100_0000);
    frame[7], frame[8] := Low(remaining), Low(remaining / 0x100);
    frame[9], frame[10] := Low(remaining / 0x1_0000), Low(remaining / 0x100_0000);
    LeFourBytes(streamId);
    LeFourBytes(remaining);
    assert frame[3..7] == LeBytes(streamId, 4);
    assert frame[7..11] == LeBytes(remaining, 4);
    assert frame[..] == [frame[0]] + [frame[1]] + ([frame[2]] + frame[3..7] + frame[7..11]);
  }

  /** buildClosePacket. */
  method BuildClose(streamId: nat, reason: byte) returns (frame: array<byte>)
    requires streamId < 0x1_0000_0000
    ensures fresh(frame) && frame[..] == RawFrame(Packet(PACKET_CLOSE, streamId, [reason]))
    ensures frame[..] == [0x82, 6, 4] + LeBytes(streamId, 4) + [reason]
  {
    frame := new byte[8](_ => 0);
    frame[0], frame[1], frame[2] := 0x82, 6, PACKET_CLOSE;
    frame[3], frame[4] := Low(streamId), Low(streamId / 0x100);
    frame[5], frame[6] := Low(streamId / 0x1_0000), Low(streamId / 0x100_0000);
    frame[7] := reason;
    LeFourBytes(streamId);
    assert frame[..] == [frame[0]] + [frame[1]] + ([frame[2]] + frame[3..7] + frame[7..8]);
  }

  /** writeRawPong: the reader hands over control payloads only, so the length is one byte. */
  method BuildPong(payload: seq<byte>) returns (frame: array<byte>)
    requires |payload| <= 125
    ensures fresh(frame) && frame[..] == FrameBytes(PongFrame(payload)) == [0x8A, |payload|] + payload
  {
    frame := new byte[2 + |payload|](_ => 0);
    frame[0], frame[1] := PONG_BYTE, |payload|;
    CopyTo(frame, 2, payload);
    assert frame[..] == [frame[..2][0]] + [frame[..2][1]] + frame[2..];
  }

  /** sendWSClose. */
  method BuildWsClose(code: nat) returns (frame: array<byte>)
    requires code < 0x1_0000
    ensures fresh(frame) && frame[..] == FrameBytes(CloseFrame(code)) == [0x88, 2, Low(code / 256), Low(code)]
  {
    frame := new byte[4](_ => 0);
    frame[0], frame[1] := CLOSE_BYTE, 2;
    frame[2], frame[3] := Low(code / 256), Low(code);
    BeTwoBytes(code);
    assert frame[..] == [frame[0]] + [frame[1]] + [frame[2], frame[3]];
  }

  // ---------------------------------------------------------------- the client's decoder

  const BINARY_BYTE: byte := 0x82
  const PONG_BYTE: byte := 0x8A
  const CLOSE_BYTE: byte := 0x88

  /** What the server puts on the wire: packets, and between them pongs and a closing code. */
  datatype ServerFrame = PacketFrame(packet: seq<byte>) | PongFrame(payload: seq<byte>) | CloseFrame(code: nat)

  predicate Framable(f: ServerFrame)
  {
    match f
    case PacketFrame(packet) => |packet| < 0x8000_0000_0000_0000
    case PongFrame(payload) => |payload| <= 125
    case CloseFrame(code) => code < 0x1_0000
  }

  function FrameBytes(f: ServerFrame): seq<byte>
    requires Framable(f)
  {
    match f
    case PacketFrame(packet) => RawFrame(packet)
    case PongFrame(payload) => [PONG_BYTE] + [|payload|] + payload
    case CloseFrame(code) => [CLOSE_BYTE] + [2] + BeBytes(code, 2)
  }

  /** The body of the first frame of a server byte stream and what follows it, if it is all there. */
  function FirstBody(input: seq<byte>): Option<(seq<byte>, seq<byte>)>
  {
    if |input| < 2 || input[1] >= 128 then None
    else
      var ext := ExtBytes(input[1]);
      if |input| < 2 + ext then None
      else
        var n := if ext == 0 then input[1] else FromBe(input[2..2 + ext]);
        if |input| < 2 + ext + n then None
        else Some((input[2 + ext..2 + ext + n], input[2 + ext + n..]))
  }

  function DecodeOne(input: seq<byte>): Option<(ServerFrame, seq<byte>)>
  {
    match FirstBody(input)
    case None => None
    case Some((body, rest)) =>
      if input[0] == BINARY_BYTE then Some((PacketFrame(body), rest))
      else if input[0] == PONG_BYTE && |body| <= 125 then Some((PongFrame(body), rest))
      else if input[0] == CLOSE_BYTE && |body| == 2 then Some((CloseFrame(FromBe(body)), rest))
      else None
  }

  function DecodeAll(input: seq<byte>): Option<seq<ServerFrame>>
    decreases |input|
  {
    if input == [] then Some([])
    else match DecodeOne(input)
      case None => None
      case Some((frame, rest)) =>
        match DecodeAll(rest)
        case None => None
        case Some(more) => Some([frame] + more)
  }

  /** The client's view: control frames are answered elsewhere and skipped. */
  function DecodePackets(input: seq<byte>): Option<seq<seq<byte>>>
    decreases |input|
  {
    if input == [] then Some([])
    else match DecodeOne(input)
      case None => None
      case Some((frame, rest)) =>
        match DecodePackets(rest)
        case None => None
        case Some(more) => Some(if frame.PacketFrame? then [frame.packet] + more else more)
  }

  function PacketsOf(frames: seq<ServerFrame>): seq<seq<byte>>
  {
    if frames == [] then []
    else (if frames[0].PacketFrame? then [frames[0].packet] else []) + PacketsOf(frames[1..])
  }

  function SendAll(frames: seq<ServerFrame>): seq<byte>
    requires forall f <- frames :: Framable(f)
  {
    if frames == [] then [] else FrameBytes(frames[0]) + SendAll(frames[1..])
  }

  lemma DecodeRawFrame(packet: seq<byte>, rest: seq<byte>)
    requires |packet| < 0x8000_0000_0000_0000
    ensures DecodeOne(RawFrame(packet) + rest) == Some((PacketFrame(packet), rest))
  {
    var n := |packet|;
    var len := FrameLength(n);
    var input := RawFrame(packet) + rest;
    PowTable();
    assert input[1] == len[0];
    assert input[1..1 + |len|] == len;
    if n > 65535 {
      FromBeBytes(n, 8);
    } else if n > 125 {
      FromBeBytes(n, 2);
    }
    assert |len| > 1 ==> input[2..1 + |len|] == len[1..];
    assert input[1 + |len|..1 + |len| + n] == packet;
    assert input[1 + |len| + n..] == rest;
  }

  lemma DecodeControlFrame(f: ServerFrame, rest: seq<byte>)
    requires Framable(f) && !f.PacketFrame?
    ensures DecodeOne(FrameBytes(f) + rest) == Some((f, rest))
  {
    var input := FrameBytes(f) + rest;
    match f
    case PongFrame(payload) =>
      assert input[2..2 + |payload|] == payload && input[2 + |payload|..] == rest;
    case CloseFrame(code) =>
      PowTable();
      FromBeBytes(code, 2);
      assert input[2..4] == BeBytes(code, 2) && input[4..] == rest;
  }

  /** A frame followed by anything is read back, with exactly what follows. */
  lemma DecodeFrame(f: ServerFrame, rest: seq<byte>)
    requires Framable(f)
    ensures DecodeOne(FrameBytes(f) + rest) == Some((f, rest))
  {
    if f.PacketFrame? {
      DecodeRawFrame(f.packet, rest);
    } else {
      DecodeControlFrame(f, rest);
    }
  }

  lemma DecodeMore(f: ServerFrame, rest: seq<byte>)
    requires Framable(f)
    ensures DecodeAll(rest).Some? ==> DecodeAll(FrameBytes(f) + rest) == Some([f] + DecodeAll(rest).value)
    ensures DecodePackets(rest).Some?
      ==> DecodePackets(FrameBytes(f) + rest) == Some((if f.PacketFrame? then [f.packet] else []) + DecodePackets(rest).value)
  {
    var input := FrameBytes(f) + rest;
    DecodeFrame(f, rest);
    assert input != [];
    if DecodePackets(rest).Some? {
      assert [] + DecodePackets(rest).value == DecodePackets(rest).value;
    }
  }

  /** The header of a data frame in each of the three length classes, byte by byte. */
  lemma DataFrameBytes(streamId: nat, data: seq<byte>)
    requires streamId < 0x1_0000_0000 && |data| + 5 < 0x8000_0000_0000_0000
    ensures var n := |data| + 5; var packet := [2] + LeBytes(streamId, 4) + data;
      RawFrame(Packet(PACKET_DATA, streamId, data))
      == (if n <= 125 then [0x82, n]
          else if n <= 65535 then [0x82, 126, Low(n / 256), Low(n)]
          else [0x82, 127] + BeBytes(n, 8)) + packet
  {
    BeTwoBytes(|data| + 5);
  }

  /** Any sequence of packets, pongs and closing codes, framed and concatenated, is read back as it was. */
  lemma {:induction false} FramesDecode(frames: seq<ServerFrame>)
    requires forall f <- frames :: Framable(f)
    ensures DecodeAll(SendAll(frames)) == Some(frames)
    ensures DecodePackets(SendAll(frames)) == Some(PacketsOf(frames))
    decreases |frames|
  {
    if frames != [] {
      assert Framable(frames[0]);
      FramesDecode(frames[1..]);
      DecodeMore(frames[0], SendAll(frames[1..]));
      assert frames == [frames[0]] + frames[1..];
    }
  }

  /** So no byte stream is the framing of two different frame sequences. */
  lemma FramesUnambiguous(fs: seq<ServerFrame>, gs: seq<ServerFrame>)
    requires (forall f <- fs :: Framable(f)) && (forall g <- gs :: Framable(g))
    requires SendAll(fs) == SendAll(gs)
    ensures fs == gs
  {
    FramesDecode(fs);
    FramesDecode(gs);
  }

  /** A packet determines its type, stream and payload. */
  lemma PacketReads(kind: byte, streamId: nat, payload: seq<byte>)
    requires streamId < 0x1_0000_0000
    ensures var p := Packet(kind, streamId, payload); p[0] == kind && FromLe(p[1..5]) == streamId && p[5..] == payload
  {
    PowTable();
    FromLeBytes(streamId, 4);
    assert Packet(kind, streamId, payload)[1..5] == LeBytes(streamId, 4);
  }
}

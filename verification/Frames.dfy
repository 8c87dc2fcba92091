/** Client frames of section 5.2 of RFC 6455 and the message rules of section 5.4, as functions of
    the whole byte string: what any splitting of it into reads must amount to. */
module Frames {
  import opened Arithmetic
  import opened Bytes
  import opened Mask

  /** The first frame of the input: cut short, refused with a close code, or complete. */
  datatype Parsed =
    | Short
    | Reject(code: nat)
    | Frame(fin: bool, opcode: nat, payload: seq<byte>, rest: seq<byte>)

  function ExtBytes(lengthCode: nat): nat { if lengthCode == 126 then 2 else if lengthCode == 127 then 8 else 0 }

  function HeaderLen(b1: byte): (n: nat)
    ensures 6 <= n <= 14
  {
    2 + ExtBytes(b1 % 128) + 4
  }

  function PayloadLen(hdr: seq<byte>): nat
    requires |hdr| >= 2 && |hdr| >= HeaderLen(hdr[1])
  {
    var lengthCode := hdr[1] % 128;
    if lengthCode <= 125 then lengthCode else FromBe(hdr[2..2 + ExtBytes(lengthCode)])
  }

  predicate Fin(b0: byte) { b0 >= 128 }

  predicate Reserved(b0: byte) { (b0 / 16) % 8 != 0 }

  predicate Masked(b1: byte) { b1 >= 128 }

  /** Everything the header alone decides, in the order the reader decides it. */
  datatype Verdict = Accept | Refuse(code: nat)

  function Judge(hdr: seq<byte>, max: nat): Verdict
    requires |hdr| >= 2 && |hdr| >= HeaderLen(hdr[1])
  {
    var opcode := hdr[0] % 16;
    if hdr[1] % 128 == 127 && hdr[2] >= 128 then Refuse(1002)
    else if opcode >= 8 && (!Fin(hdr[0]) || PayloadLen(hdr) > 125) then Refuse(1002)
    else if PayloadLen(hdr) > max then Refuse(1009)
    else Accept
  }

  function ParseFrame(input: seq<byte>, max: nat): Parsed
  {
    if |input| < 2 then Short
    else if Reserved(input[0]) || !Masked(input[1]) then Reject(1002)
    else
      var h := HeaderLen(input[1]);
      if |input| < h then Short
      else match Judge(input[..h], max)
        case Refuse(code) => Reject(code)
        case Accept =>
          var n := PayloadLen(input[..h]);
          if |input| < h + n then Short
          else Frame(Fin(input[0]), input[0] % 16, Unmask(input[h..h + n], input[h - 4..h]), input[h + n..])
  }

  // ---------------------------------------------------------------- messages

  datatype Event = Deliver(packet: seq<byte>) | Pong(payload: seq<byte>) | Close(code: nat)

  /** fragmentedOpcode and fragmented. */
  datatype Assembly = Assembly(opcode: nat, data: seq<byte>)

  const NO_MESSAGE: Assembly := Assembly(0, [])

  /** Effect of one accepted frame: the assembly after it, what is sent or delivered, whether the loop ends. */
  datatype Outcome = Outcome(next: Assembly, events: seq<Event>, stop: bool)

  function CloseCode(payload: seq<byte>): nat
  {
    if |payload| == 1 then 1002 else if |payload| >= 2 then FromBe(payload[..2]) else 1000
  }

  function OnFrame(st: Assembly, fin: bool, opcode: nat, payload: seq<byte>, max: nat): Outcome
  {
    if opcode == 0 then
      if st.opcode == 0 then Outcome(st, [Close(1002)], true)
      else if |st.data| + |payload| > max then Outcome(st, [Close(1009)], true)
      else if fin then Outcome(NO_MESSAGE, [Deliver(st.data + payload)], false)
      else Outcome(Assembly(st.opcode, st.data + payload), [], false)
    else if opcode == 2 then
      if st.opcode != 0 then Outcome(st, [Close(1002)], true)
      else if !fin then Outcome(Assembly(2, payload), [], false)
      else Outcome(st, [Deliver(payload)], false)
    else if opcode == 1 then Outcome(st, [Close(1003)], true)
    else if opcode == 9 then Outcome(st, [Pong(payload)], false)
    else if opcode == 10 then Outcome(st, [], false)
    else if opcode == 8 then Outcome(st, [Close(CloseCode(payload))], true)
    else Outcome(st, [Close(1002)], true)
  }

  /** Open exactly while a fragmented message is, which is binary and within the cap. */
  ghost predicate AssemblyOk(st: Assembly, max: nat)
  {
    st == NO_MESSAGE || (st.opcode == 2 && |st.data| <= max)
  }

  lemma FramesKeepAssembly(st: Assembly, fin: bool, opcode: nat, payload: seq<byte>, max: nat)
    requires AssemblyOk(st, max) && |payload| <= max
    ensures AssemblyOk(OnFrame(st, fin, opcode, payload, max).next, max)
    ensures !OnFrame(st, fin, opcode, payload, max).stop && opcode in {0, 2}
        ==> (OnFrame(st, fin, opcode, payload, max).next.opcode != 0 <==> !fin)
    ensures opcode !in {0, 2} ==> OnFrame(st, fin, opcode, payload, max).next == st
  {
  }

  /** All that the loop sends and delivers for an input that then ends. */
  function Run(input: seq<byte>, st: Assembly, max: nat): seq<Event>
    decreases |input|
  {
    match ParseFrame(input, max)
    case Short => []
    case Reject(code) => [Close(code)]
    case Frame(fin, opcode, payload, rest) =>
      var o := OnFrame(st, fin, opcode, payload, max);
      if o.stop then o.events else o.events + Run(rest, o.next, max)
  }

  // ---------------------------------------------------------------- the client's encoder

  datatype Sent = Sent(fin: bool, opcode: nat, payload: seq<byte>, key: seq<byte>)

  /** A frame a client may send: 4-bit opcode, 4-byte key, 63-bit length. */
  predicate Sendable(f: Sent) { f.opcode < 16 && |f.key| == 4 && |f.payload| < 0x8000_0000_0000_0000 }

  function LengthField(n: nat): seq<byte>
    requires n < 0x8000_0000_0000_0000
  {
    if n <= 125 then [128 + n] else if n <= 65535 then [128 + 126] + BeBytes(n, 2) else [128 + 127] + BeBytes(n, 8)
  }

  function Encode(f: Sent): seq<byte>
    requires Sendable(f)
  {
    [(if f.fin then 128 else 0) + f.opcode] + LengthField(|f.payload|) + f.key + Unmask(f.payload, f.key)
  }

  lemma {:induction false} BeTopByte(n: nat, w: nat)
    requires w > 0 && n < Pow256(w)
    ensures BeBytes(n, w)[0] == n / Pow256(w - 1)
    decreases w
  {
    if w == 1 {
      assert BeBytes(n, 1) == BeBytes(n / 256, 0) + [Low(n)] == [Low(n)];
      assert Pow256(0) == 1 && Pow256(1) == 256;
    } else {
      BeTopByte(n / 256, w - 1);
      DivTwice(n, 256, Pow256(w - 2));
    }
  }

  lemma TopBitClear(n: nat)
    requires n < 0x8000_0000_0000_0000
    ensures BeBytes(n, 8)[0] < 128
  {
    PowTable();
    BeTopByte(n, 8);
    assert Pow256(8) == 256 * Pow256(7);
  }

  lemma LengthDecodes(n: nat)
    requires n < 0x8000_0000_0000_0000
    ensures var f := LengthField(n);
      && Masked(f[0]) && |f| == 1 + ExtBytes(f[0] % 128)
      && (f[0] % 128 <= 125 ==> f[0] % 128 == n)
      && (f[0] % 128 > 125 ==> FromBe(f[1..]) == n)
      && (f[0] % 128 == 127 ==> f[1] < 128)
  {
    PowTable();
    if 125 < n <= 65535 {
      FromBeBytes(n, 2);
      assert LengthField(n)[1..] == BeBytes(n, 2);
    } else if 65535 < n {
      FromBeBytes(n, 8);
      TopBitClear(n);
      assert LengthField(n)[1..] == BeBytes(n, 8);
    }
  }

  /** Section 5.5 of RFC 6455: control frames are unfragmented and short. */
  predicate WellFormed(f: Sent, max: nat)
  {
    Sendable(f) && |f.payload| <= max && (f.opcode >= 8 ==> f.fin && |f.payload| <= 125)
  }

  function HeaderOf(f: Sent): seq<byte>
    requires Sendable(f)
  {
    [(if f.fin then 128 else 0) + f.opcode] + LengthField(|f.payload|) + f.key
  }

  lemma HeaderParses(f: Sent, max: nat)
    requires WellFormed(f, max)
    ensures var hdr := HeaderOf(f);
      && |hdr| == HeaderLen(hdr[1]) && !Reserved(hdr[0]) && Masked(hdr[1])
      && Fin(hdr[0]) == f.fin && hdr[0] % 16 == f.opcode
      && PayloadLen(hdr) == |f.payload| && Judge(hdr, max) == Accept && hdr[|hdr| - 4..] == f.key
  {
    var n := |f.payload|;
    var hdr, len := HeaderOf(f), LengthField(n);
    LengthDecodes(n);
    assert hdr[1] == len[0];
    assert hdr[1..1 + |len|] == len;
    assert hdr[2..2 + ExtBytes(hdr[1] % 128)] == len[1..];
  }

  /** The server reads back what the client encoded and goes on right behind it. */
  lemma ParseEncoded(f: Sent, rest: seq<byte>, max: nat)
    requires WellFormed(f, max)
    ensures ParseFrame(Encode(f) + rest, max) == Frame(f.fin, f.opcode, f.payload, rest)
  {
    var input, hdr := Encode(f) + rest, HeaderOf(f);
    var h, n := |hdr|, |f.payload|;
    HeaderParses(f, max);
    assert input == hdr + Unmask(f.payload, f.key) + rest;
    assert input[0] == hdr[0] && input[1] == hdr[1];
    assert input[..h] == hdr;
    assert input[h - 4..h] == hdr[h - 4..] == f.key;
    assert input[h..h + n] == Unmask(f.payload, f.key);
    assert input[h + n..] == rest;
    UnmaskTwice(f.payload, f.key);
  }

  // ---------------------------------------------------------------- fragmentation

  /** What a client sends while one message is under way: pieces of it, pings and pongs. */
  datatype Item = Piece(data: seq<byte>, key: seq<byte>) | PingItem(data: seq<byte>, key: seq<byte>) | PongItem(data: seq<byte>, key: seq<byte>)

  predicate HasPiece(items: seq<Item>) { exists i <- items :: i.Piece? }

  function Message(items: seq<Item>): seq<byte>
  {
    if items == [] then [] else (if items[0].Piece? then items[0].data else []) + Message(items[1..])
  }

  /** Section 5.4 of RFC 6455: the first piece is a binary frame, later ones continuations, the last is
      final; open says that earlier pieces of the message went before. */
  function Fragments(items: seq<Item>, open: bool): seq<Sent>
  {
    if items == [] then []
    else match items[0]
      case Piece(data, key) =>
        [Sent(!HasPiece(items[1..]), if open then 0 else 2, data, key)] + Fragments(items[1..], HasPiece(items[1..]))
      case PingItem(data, key) => [Sent(true, 9, data, key)] + Fragments(items[1..], open)
      case PongItem(data, key) => [Sent(true, 10, data, key)] + Fragments(items[1..], open)
  }

  predicate ItemOk(i: Item) { |i.key| == 4 && |i.data| < 0x8000_0000_0000_0000 && (!i.Piece? ==> |i.data| <= 125) }

  lemma {:induction false} FragmentsSendable(items: seq<Item>, open: bool)
    requires forall i <- items :: ItemOk(i)
    ensures forall f <- Fragments(items, open) :: Sendable(f)
    decreases |items|
  {
    if items != [] {
      assert ItemOk(items[0]);
      FragmentsSendable(items[1..], if items[0].Piece? then HasPiece(items[1..]) else open);
    }
  }

  function EncodeAll(fs: seq<Sent>): seq<byte>
    requires forall f <- fs :: Sendable(f)
  {
    if fs == [] then [] else Encode(fs[0]) + EncodeAll(fs[1..])
  }

  /** The events such items must cause: each ping its pong at once, the message once, whole, with its last piece. */
  function Expected(items: seq<Item>, before: seq<byte>): seq<Event>
  {
    if items == [] then []
    else match items[0]
      case Piece(data, _) =>
        if HasPiece(items[1..]) then Expected(items[1..], before + data)
        else [Deliver(before + data)] + Expected(items[1..], [])
      case PingItem(data, _) => [Pong(data)] + Expected(items[1..], before)
      case PongItem(_, _) => Expected(items[1..], before)
  }

  lemma OneFrame(f: Sent, more: seq<Sent>, rest: seq<byte>, st: Assembly, max: nat)
    requires WellFormed(f, max) && (forall g <- more :: Sendable(g))
    ensures forall g <- [f] + more :: Sendable(g)
    ensures var o := OnFrame(st, f.fin, f.opcode, f.payload, max);
      Run(EncodeAll([f] + more) + rest, st, max) == if o.stop then o.events else o.events + Run(EncodeAll(more) + rest, o.next, max)
  {
    assert ([f] + more)[1..] == more;
    assert EncodeAll([f] + more) + rest == Encode(f) + (EncodeAll(more) + rest);
    ParseEncoded(f, EncodeAll(more) + rest, max);
  }

  /** The frame of the first item, and where it takes the assembly. */
  lemma FirstItem(items: seq<Item>, st: Assembly, max: nat) returns (f: Sent, o: Outcome)
    requires items != [] && ItemOk(items[0]) && |items[0].data| <= max
    requires AssemblyOk(st, max) && |st.data| + |Message(items)| <= max
    requires st == NO_MESSAGE || HasPiece(items)
    ensures WellFormed(f, max) && o == OnFrame(st, f.fin, f.opcode, f.payload, max) && !o.stop
    ensures Fragments(items, st != NO_MESSAGE) == [f] + Fragments(items[1..], o.next != NO_MESSAGE)
    ensures AssemblyOk(o.next, max) && |o.next.data| + |Message(items[1..])| <= max
    ensures o.next == NO_MESSAGE || HasPiece(items[1..])
    ensures Expected(items, st.data) == o.events + Expected(items[1..], o.next.data)
  {
    f := Fragments(items, st != NO_MESSAGE)[0];
    o := OnFrame(st, f.fin, f.opcode, f.payload, max);
    assert items == [items[0]] + items[1..];
    if st == NO_MESSAGE {
      assert [] + items[0].data == items[0].data;
    }
  }

  lemma {:induction false} FragmentsRun(items: seq<Item>, st: Assembly, rest: seq<byte>, max: nat)
    requires forall i <- items :: ItemOk(i) && |i.data| <= max
    requires AssemblyOk(st, max) && |st.data| + |Message(items)| <= max
    requires st == NO_MESSAGE || HasPiece(items)
    ensures forall f <- Fragments(items, st != NO_MESSAGE) :: Sendable(f)
    ensures Run(EncodeAll(Fragments(items, st != NO_MESSAGE)) + rest, st, max) == Expected(items, st.data) + Run(rest, NO_MESSAGE, max)
    decreases |items|
  {
    FragmentsSendable(items, st != NO_MESSAGE);
    if items == [] {
      assert EncodeAll([]) + rest == rest;
    } else {
      var f, o := FirstItem(items, st, max);
      FragmentsRun(items[1..], o.next, rest, max);
      var more := Fragments(items[1..], o.next != NO_MESSAGE);
      FragmentsSendable(items[1..], o.next != NO_MESSAGE);
      FragmentsThen(items, f, o, more, st, rest, max);
    }
  }

  lemma FragmentsThen(items: seq<Item>, f: Sent, o: Outcome, more: seq<Sent>, st: Assembly, rest: seq<byte>, max: nat)
    requires items != [] && WellFormed(f, max) && (forall g <- more :: Sendable(g))
    requires o == OnFrame(st, f.fin, f.opcode, f.payload, max) && !o.stop
    requires Run(EncodeAll(more) + rest, o.next, max) == Expected(items[1..], o.next.data) + Run(rest, NO_MESSAGE, max)
    requires Expected(items, st.data) == o.events + Expected(items[1..], o.next.data)
    ensures forall g <- [f] + more :: Sendable(g)
    ensures Run(EncodeAll([f] + more) + rest, st, max) == Expected(items, st.data) + Run(rest, NO_MESSAGE, max)
  {
    OneFrame(f, more, rest, st, max);
    Associate(o.events, Expected(items[1..], o.next.data), Run(rest, NO_MESSAGE, max));
  }

  function Deliveries(events: seq<Event>): seq<seq<byte>>
  {
    if events == [] then []
    else (if events[0].Deliver? then [events[0].packet] else []) + Deliveries(events[1..])
  }

  lemma {:induction false} ExpectedDeliversOnce(items: seq<Item>, before: seq<byte>)
    ensures Deliveries(Expected(items, before)) == if HasPiece(items) then [before + Message(items)] else []
    decreases |items|
  {
    if items != [] {
      assert items == [items[0]] + items[1..];
      match items[0]
      case Piece(data, _) =>
        if HasPiece(items[1..]) {
          ExpectedDeliversOnce(items[1..], before + data);
          assert before + data + Message(items[1..]) == before + Message(items);
        } else {
          ExpectedDeliversOnce(items[1..], []);
          NoPieceNoData(items[1..]);
          assert Expected(items, before)[1..] == Expected(items[1..], []);
          assert data + [] == data;
        }
      case PingItem(data, _) =>
        ExpectedDeliversOnce(items[1..], before);
        assert Message(items) == Message(items[1..]);
        assert Expected(items, before)[1..] == Expected(items[1..], before);
      case PongItem(_, _) => ExpectedDeliversOnce(items[1..], before);
    }
  }

  lemma {:induction false} NoPieceNoData(items: seq<Item>)
    requires !HasPiece(items)
    ensures Message(items) == []
    decreases |items|
  {
    if items != [] {
      assert items[0] in items;
      assert forall i <- items[1..] :: i in items;
      NoPieceNoData(items[1..]);
    }
  }

  /** However a message within the cap is cut, empty pieces and interleaved control frames included,
      the server delivers it once and whole, just as it delivers the single frame, and goes on the same. */
  lemma FragmentationIsTransparent(items: seq<Item>, key: seq<byte>, rest: seq<byte>, max: nat)
    requires (forall i <- items :: ItemOk(i) && |i.data| <= max) && HasPiece(items)
    requires |key| == 4 && |Message(items)| <= max < 0x8000_0000_0000_0000
    ensures forall f <- Fragments(items, false) :: Sendable(f)
    ensures var events := Expected(items, []);
      && Deliveries(events) == [Message(items)]
      && Run(EncodeAll(Fragments(items, false)) + rest, NO_MESSAGE, max) == events + Run(rest, NO_MESSAGE, max)
    ensures Run(Encode(Sent(true, 2, Message(items), key)) + rest, NO_MESSAGE, max) == [Deliver(Message(items))] + Run(rest, NO_MESSAGE, max)
  {
    FragmentsRun(items, NO_MESSAGE, rest, max);
    ExpectedDeliversOnce(items, []);
    assert [] + Message(items) == Message(items);
    ParseEncoded(Sent(true, 2, Message(items), key), rest, max);
  }

  /** A message over the cap: its frames up to the one that passes the cap cause pongs at most, that one
      the close. */
  lemma FirstOfBig(items: seq<Item>, st: Assembly, max: nat) returns (f: Sent, o: Outcome, open: bool)
    requires items != [] && ItemOk(items[0]) && |items[0].data| <= max
    requires AssemblyOk(st, max) && |st.data| + |Message(items)| > max
    ensures WellFormed(f, max) && o == OnFrame(st, f.fin, f.opcode, f.payload, max)
    ensures Fragments(items, st != NO_MESSAGE) == [f] + Fragments(items[1..], open)
    ensures o.stop ==> o.events == [Close(1009)]
    ensures !o.stop ==> open == (o.next != NO_MESSAGE) && Deliveries(o.events) == []
    ensures !o.stop ==> AssemblyOk(o.next, max) && |o.next.data| + |Message(items[1..])| > max
  {
    f := Fragments(items, st != NO_MESSAGE)[0];
    o := OnFrame(st, f.fin, f.opcode, f.payload, max);
    open := if items[0].Piece? then HasPiece(items[1..]) else st != NO_MESSAGE;
    if items[0].Piece? && !HasPiece(items[1..]) {
      NoPieceNoData(items[1..]);
    }
  }

  lemma {:induction false} BigMessageRun(items: seq<Item>, st: Assembly, rest: seq<byte>, max: nat)
    requires forall i <- items :: ItemOk(i) && |i.data| <= max
    requires AssemblyOk(st, max) && |st.data| + |Message(items)| > max
    ensures forall f <- Fragments(items, st != NO_MESSAGE) :: Sendable(f)
    ensures RefusedWhole(Run(EncodeAll(Fragments(items, st != NO_MESSAGE)) + rest, st, max))
    decreases |items|
  {
    FragmentsSendable(items, st != NO_MESSAGE);
    var f, o, open := FirstOfBig(items, st, max);
    var more := Fragments(items[1..], open);
    FragmentsSendable(items[1..], open);
    OneFrame(f, more, rest, st, max);
    if !o.stop {
      BigMessageRun(items[1..], o.next, rest, max);
      RefusedLater(o.events, Run(EncodeAll(more) + rest, o.next, max));
    }
  }

  /** Nothing is delivered and the connection is closed for a message too big. */
  predicate RefusedWhole(events: seq<Event>)
  {
    Deliveries(events) == [] && events != [] && events[|events| - 1] == Close(1009)
  }

  lemma {:induction false} RefusedLater(a: seq<Event>, b: seq<Event>)
    requires Deliveries(a) == [] && RefusedWhole(b)
    ensures RefusedWhole(a + b)
    decreases |a|
  {
    if a == [] {
      assert a + b == b;
    } else {
      assert a + b == [a[0]] + (a[1..] + b);
      RefusedLater(a[1..], b);
    }
  }

  /** A message whose pieces fit but whose total is over the cap is refused, whatever follows. */
  lemma BigMessageRefused(items: seq<Item>, rest: seq<byte>, max: nat)
    requires (forall i <- items :: ItemOk(i) && |i.data| <= max) && |Message(items)| > max
    ensures forall f <- Fragments(items, false) :: Sendable(f)
    ensures RefusedWhole(Run(EncodeAll(Fragments(items, false)) + rest, NO_MESSAGE, max))
  {
    BigMessageRun(items, NO_MESSAGE, rest, max);
  }
}

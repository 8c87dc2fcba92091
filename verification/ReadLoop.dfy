/** readLoop: frames off the wire, one at a time, with the receive buffers it takes for them. */
module ReadLoop {
  import opened Bytes
  import opened Mask
  import opened FrameReader
  import opened Frames

  /** What became of a receive buffer: put back in the pool, or kept by the handler it was given to. */
  datatype Fate = PutBack | HandedOff

  /** The buffers taken so far, numbered, with the fate of each one settled. */
  class BufferPool {
    var issued: nat
    var fates: seq<Fate>

    ghost predicate AllSettled()
      reads this
    {
      |fates| == issued
    }

    constructor ()
      ensures AllSettled()
    {
      issued, fates := 0, [];
    }

    method Get() returns (lease: nat)
      requires AllSettled()
      modifies this
      ensures lease == old(issued) && issued == lease + 1 && fates == old(fates)
    {
      lease := issued;
      issued := issued + 1;
    }

    /** Only the one buffer that is out and unsettled can be settled, and only once. */
    method Settle(lease: nat, fate: Fate)
      requires lease == |fates| && issued == lease + 1
      modifies this
      ensures AllSettled() && issued == old(issued) && fates == old(fates) + [fate]
    {
      fates := fates + [fate];
    }
  }

  /** Result of reading one frame: the input ended, it must be refused, or it is whole and unmasked. */
  datatype Read = Ended | Bad(code: nat) | Got(fin: bool, opcode: nat, payload: seq<byte>, lease: nat)

  /** The pure parser's answer in the same shape. */
  ghost predicate Matches(res: Read, parsed: Parsed, rest: seq<byte>, pool: BufferPool)
    reads pool
  {
    match parsed
    case Short => res == Ended && pool.AllSettled()
    case Reject(code) => res == Bad(code) && pool.AllSettled()
    case Frame(fin, opcode, payload, after) =>
      && res == Got(fin, opcode, payload, |pool.fates|) && pool.issued == |pool.fates| + 1 && rest == after
  }

  lemma HeaderAndBody(input: seq<byte>, hdr: seq<byte>, n: nat)
    requires 4 <= |hdr| && hdr <= input
    ensures input[..|hdr|] == hdr && hdr[|hdr| - 4..] == input[|hdr| - 4..|hdr|]
    ensures n <= |input[|hdr|..]| ==>
      input[|hdr|..][..n] == input[|hdr|..|hdr| + n] && input[|hdr|..][n..] == input[|hdr| + n..]
  {
  }

  method ReadFrame(reader: Reader, max: nat, order: Order, pool: BufferPool) returns (res: Read)
    requires reader.Valid() && pool.AllSettled()
    modifies reader, reader.buf, reader.conn, pool
    ensures reader.Valid() && old(pool.fates) <= pool.fates <= old(pool.fates) + [PutBack]
    ensures Matches(res, ParseFrame(old(reader.Rest()), max), reader.Rest(), pool)
  {
    ghost var input := reader.Rest();
    var hdr, code := ReadHeader(reader, max);
    if hdr == [] {
      return if code == 0 then Ended else Bad(code);
    }
    var h, n := |hdr|, PayloadLen(hdr);
    var lease, whole, payload := ReadBody(reader, n, hdr[h - 4..], order, pool);
    HeaderAndBody(input, hdr, n);
    if !whole {
      return Ended;
    }
    return Got(Fin(hdr[0]), hdr[0] % 16, payload, lease);
  }

  /** The header, consumed, if the frame may go on; otherwise nothing and the close code, 0 for none. */
  method ReadHeader(reader: Reader, max: nat) returns (hdr: seq<byte>, code: nat)
    requires reader.Valid()
    modifies reader, reader.buf, reader.conn
    ensures reader.Valid()
    ensures hdr != [] ==>
      && |hdr| >= 2 && |hdr| == HeaderLen(hdr[1]) && hdr <= old(reader.Rest()) && reader.Rest() == old(reader.Rest())[|hdr|..]
      && !Reserved(hdr[0]) && Masked(hdr[1]) && Judge(hdr, max) == Accept
    ensures hdr == [] ==> ParseFrame(old(reader.Rest()), max) == if code == 0 then Short else Reject(code)
  {
    ghost var input := reader.Rest();
    var err;
    err, hdr := reader.Peek(2);
    if err {
      return [], 0;
    }
    var b0, b1 := hdr[0], hdr[1];
    if Reserved(b0) || !Masked(b1) {
      return [], 1002;
    }
    var headerLen := HeaderLen(b1);
    err, hdr := reader.Peek(headerLen);
    if err {
      return [], 0;
    }
    var verdict := Judge(hdr, max);
    if verdict.Refuse? {
      return [], verdict.code;
    }
    reader.Consume(headerLen);
    return hdr, 0;
  }

  /** The payload into a buffer from the pool, unmasked in place. */
  method ReadBody(reader: Reader, n: nat, key: seq<byte>, order: Order, pool: BufferPool)
    returns (lease: nat, whole: bool, bytes: seq<byte>)
    requires reader.Valid() && pool.AllSettled() && |key| == 4
    modifies reader, reader.conn, pool
    ensures reader.Valid() && lease == |old(pool.fates)|
    ensures whole <==> |old(reader.Rest())| >= n
    ensures whole ==> bytes == Unmask(old(reader.Rest())[..n], key) && reader.Rest() == old(reader.Rest())[n..]
    ensures whole ==> pool.fates == old(pool.fates) && pool.issued == lease + 1
    ensures !whole ==> pool.AllSettled() && pool.fates == old(pool.fates) + [PutBack]
  {
    lease := pool.Get();
    var payload := new byte[n](_ => 0);
    if n > 0 {
      var err := reader.ReadPayload(payload);
      if err {
        pool.Settle(lease, PutBack);
        return lease, false, [];
      }
      MaskXor(payload, key, order);
    }
    return lease, true, payload[..];
  }

  /** The connection as the loop uses it: what it sent and delivered, and its message cap. */
  class Connection {
    const max: nat
    var events: seq<Event>
    // the handler's answers: whether it kept the packet's buffer
    var kept: seq<bool>

    constructor (max: nat)
      ensures this.max == max && events == [] && kept == []
    {
      this.max := max;
      events, kept := [], [];
    }

    /** handleWispFrame: the packet is processed; whether it kept the buffer is the handler's answer. */
    method HandleWispFrame(packet: seq<byte>) returns (keep: bool)
      modifies this
      ensures events == old(events) + [Deliver(packet)] && kept == old(kept) + [keep]
    {
      events := events + [Deliver(packet)];
      keep := *;
      kept := kept + [keep];
    }

    method SendWSClose(code: nat)
      modifies this`events
      ensures events == old(events) + [Close(code)]
    {
      events := events + [Close(code)];
    }

    method WriteRawPong(payload: seq<byte>)
      modifies this`events
      ensures events == old(events) + [Pong(payload)]
    {
      events := events + [Pong(payload)];
    }
  }

  /** One turn of the opcode switch on a whole frame; every path settles the frame's buffer, which is
      handed off exactly when it was an unfragmented packet and the handler kept it. */
  method Dispatch(c: Connection, pool: BufferPool, st: Assembly, fin: bool, opcode: nat, payload: seq<byte>, lease: nat)
    returns (next: Assembly, stop: bool)
    requires lease == |pool.fates| && pool.issued == lease + 1
    modifies c, pool
    ensures pool.AllSettled()
    ensures var handedOff := opcode == 2 && fin && st.opcode == 0 && c.kept == old(c.kept) + [true];
      pool.fates == old(pool.fates) + [if handedOff then HandedOff else PutBack]
    ensures var o := OnFrame(st, fin, opcode, payload, c.max);
      next == o.next && stop == o.stop && c.events == old(c.events) + o.events
  {
    var keep := false;
    next := st;
    match opcode {
      case 0 =>
        if st.opcode == 0 {
          pool.Settle(lease, PutBack);
          c.SendWSClose(1002);
          return st, true;
        }
        if |st.data| + |payload| > c.max {
          pool.Settle(lease, PutBack);
          c.SendWSClose(1009);
          return st, true;
        }
        var fragmented := st.data + payload;
        pool.Settle(lease, PutBack);
        if fin {
          var _ := c.HandleWispFrame(fragmented);
          return NO_MESSAGE, false;
        }
        return Assembly(st.opcode, fragmented), false;
      case 2 =>
        if st.opcode != 0 {
          pool.Settle(lease, PutBack);
          c.SendWSClose(1002);
          return st, true;
        }
        if !fin {
          pool.Settle(lease, PutBack);
          return Assembly(opcode, payload), false;
        }
        keep := c.HandleWispFrame(payload);
        assert c.kept[|old(c.kept)|] == keep;
      case 1 =>
        pool.Settle(lease, PutBack);
        c.SendWSClose(1003);
        return st, true;
      case 9 =>
        c.WriteRawPong(payload);
      case 10 =>
      case 8 =>
        c.SendWSClose(CloseCode(payload));
        pool.Settle(lease, PutBack);
        return st, true;
      case _ =>
        pool.Settle(lease, PutBack);
        c.SendWSClose(1002);
        return st, true;
    }
    pool.Settle(lease, if keep then HandedOff else PutBack);
    stop := false;
  }

  /** The whole loop: what it sends and delivers depends on the bytes only, not on how the network cut
      them into reads; every buffer it took is put back or handed off, never both and never neither. */
  method ReadLoop(c: Connection, source: Source, pool: BufferPool, order: Order)
    requires pool.AllSettled()
    modifies c, source, pool
    ensures c.events == old(c.events) + Run(old(source.unread), NO_MESSAGE, c.max)
    ensures pool.AllSettled()
  {
    var reader := new Reader(source);
    var st := NO_MESSAGE;
    ghost var total := c.events + Run(reader.Rest(), st, c.max);
    while true
      invariant reader.Valid() && fresh(reader) && fresh(reader.buf) && reader.conn == source
      invariant pool.AllSettled()
      invariant AssemblyOk(st, c.max)
      invariant c.events + Run(reader.Rest(), st, c.max) == total
      decreases |reader.Rest()|
    {
      ghost var input, before := reader.Rest(), c.events;
      var res := ReadFrame(reader, c.max, order, pool);
      match res {
        case Ended =>
          return;
        case Bad(code) =>
          c.SendWSClose(code);
          return;
        case Got(fin, opcode, payload, lease) =>
          ghost var o := OnFrame(st, fin, opcode, payload, c.max);
          FramesKeepAssembly(st, fin, opcode, payload, c.max);
          var stop;
          st, stop := Dispatch(c, pool, st, fin, opcode, payload, lease);
          if stop {
            return;
          }
          Associate(before, o.events, Run(reader.Rest(), st, c.max));
      }
    }
  }
}

/** Delivery across the ready transition: what reaches the target is the parked payloads and then the
    later ones, in arrival order, and exactly the payloads parked after the snapshot are missing. */
module Delivery {
  import opened Wrappers
  import opened Bytes
  import opened BatchQueue
  import opened Runs
  import opened StreamMachine
  import opened StreamControl

  function InWriter(w: Writer): seq<byte>
  {
    match w
    case Taken(batch) => Payloads(batch)
    case Writing(_, rest) => rest
    case _ => []
  }

  function InDirect(r: Reader): seq<byte> { if r.Direct? then r.rest else [] }

  /** What is due to the target and not yet written, in the order it will be. */
  function Undelivered(s: State): seq<byte>
  {
    if !s.flags.snapped then Concat(s.stream.pendingData)
    else if s.connector.Flushing? then s.connector.rest + Concat(s.connector.todo)
    else InWriter(s.writer) + Payloads(s.stream.q.pending) + InDirect(s.reader)
  }

  function Due(s: State): seq<byte> { Concat(s.h.parked) + Concat(s.h.queued) }

  ghost predicate InOrder(s: State)
  {
    && s.stream.sink <= Due(s)
    && (!s.stream.dead ==> Due(s) == s.stream.sink + Undelivered(s))
    && (!s.flags.snapped ==> s.stream.sink == [] && s.stream.pendingData == s.h.parked)
    && (!s.flags.snapped && s.stream.dead ==> s.connector.Failing?)
    && (s.connector.Failing? && s.flags.snapped ==> s.stream.dead)
  }

  /** The payload the reader carries that is in none of the logs. */
  function InHand(r: Reader): seq<seq<byte>>
  {
    if r.Idle? || r.Direct? || r.Broken? || r.Crashed? || r.Charging? || r.Returning? then [] else [r.p.payload]
  }

  ghost predicate AllSeen(s: State)
  {
    s.h.arrivals == s.h.parked + s.h.lost + s.h.queued + InHand(s.reader)
  }

  /** Statements about a stream that is still open, on a connection that is. */
  ghost predicate Delivered(s: State)
  {
    && (s.flags.isOpen ==> InOrder(s))
    && (s.flags.isOpen && s.flags.connOpen ==> AllSeen(s))
  }

  // ---------------------------------------------------------------- the reader

  lemma {:induction false} PayloadsAppend(a: seq<Job>, b: seq<Job>)
    ensures Payloads(a + b) == Payloads(a) + Payloads(b)
    decreases |a|
  {
    if a == [] {
      assert a + b == b;
    } else {
      assert (a + b)[0] == a[0] && (a + b)[1..] == a[1..] + b;
      PayloadsAppend(a[1..], b);
    }
  }

  lemma PayloadsSnoc(a: seq<Job>, j: Job)
    ensures Payloads(a + [j]) == Payloads(a) + j.payload
  {
    PayloadsAppend(a, [j]);
    assert Payloads([j]) == j.payload + Payloads([]);
  }

  lemma ParkKeepsInOrder(c: Config, s: State, p: Job)
    requires InOrder(s) && Ctl(c, s) && s.reader == InLock(p) && s.flags.isOpen
    ensures InOrder(Park(s, p))
  {
    var t := Park(s, p);
    if t.h.parked != s.h.parked {
      ConcatSnoc(s.h.parked, p.payload);
      assert s.h.queued == [];
      assert Concat(t.h.queued) == [];
    }
  }

  lemma QueueKeepsInOrder(c: Config, s: State, p: Job)
    requires InOrder(s) && Phases(c, s) && ReaderPhases(c, s) && WriterPhases(c, s) && s.reader == AtQueue(p) && s.flags.isOpen
    ensures InOrder(Enqueue(c, s, p))
  {
    var t := Enqueue(c, s, p);
    if t.h.queued != s.h.queued {
      ConcatSnoc(s.h.queued, p.payload);
      Associate(Concat(s.h.parked), Concat(s.h.queued), p.payload);
      assert Due(t) == Due(s) + p.payload;
      QueueGrows(c, s, p);
      Associate(s.stream.sink, Undelivered(s), p.payload);
    }
  }

  lemma QueueGrows(c: Config, s: State, p: Job)
    requires s.reader == AtQueue(p) && s.flags.snapped && !s.connector.Flushing? && (s.stream.q.active || s.writer.NoWriter?)
    ensures var t := Enqueue(c, s, p);
      t.h.queued != s.h.queued ==> Undelivered(t) == Undelivered(s) + p.payload
  {
    var t := Enqueue(c, s, p);
    var w, queued := InWriter(s.writer), Payloads(s.stream.q.pending);
    PayloadsSnoc(s.stream.q.pending, p);
    Associate(w, queued, p.payload);
    assert InDirect(s.reader) == InDirect(t.reader) == [];
    assert w + queued + [] == w + queued;
    if t.h.queued != s.h.queued {
      assert InWriter(t.writer) == w;
      assert Undelivered(t) == w + (queued + p.payload) + [];
    }
  }

  lemma DirectKeepsInOrder(c: Config, s: State, a: Action, t: State)
    requires InOrder(s) && Ctl(c, s) && s.flags.isOpen
    requires StepReader(c, s, a) == Some(t) && (a.DirectWrites? || a.DirectFails?)
    ensures InOrder(t)
  {
    if s.stream.dead {
      assert s.reader.rest[..a.n] == [] && s.stream.sink + [] == s.stream.sink;
    } else {
      assert Undelivered(s) == s.reader.rest;
      MovePrefix(Due(s), s.stream.sink, s.reader.rest, a.n, []);
      assert t.reader.Direct? ==> Undelivered(t) == t.reader.rest;
    }
  }

  lemma StartDirectKeepsInOrder(c: Config, s: State, t: State)
    requires InOrder(s) && Phases(c, s) && ReaderPhases(c, s) && WriterPhases(c, s)
    requires s.flags.isOpen && s.reader.SawReady? && t.reader.Direct?
    requires ReaderMoves(c, s) == Some(t)
    ensures InOrder(t)
  {
    NothingBeforeDirect(c, s, t);
    MoreDue(s, t, s.reader.p.payload);
  }

  lemma MoreDue(s: State, t: State, x: seq<byte>)
    requires t.h.parked == s.h.parked && t.h.queued == s.h.queued + [x]
    ensures Due(t) == Due(s) + x
    ensures Undelivered(s) == [] && Due(s) == s.stream.sink + Undelivered(s) ==> Due(t) == s.stream.sink + x
  {
    ConcatSnoc(s.h.queued, x);
    Associate(Concat(s.h.parked), Concat(s.h.queued), x);
  }

  /** A direct write starts with nothing else due. */
  lemma NothingBeforeDirect(c: Config, s: State, t: State)
    requires Phases(c, s) && ReaderPhases(c, s) && WriterPhases(c, s)
    requires s.flags.isOpen && s.reader.SawReady? && t.reader.Direct?
    requires ReaderMoves(c, s) == Some(t)
    ensures t.stream == s.stream && t.flags == s.flags && t.connector == s.connector
    ensures t.flags.snapped && !t.connector.Failing?
    ensures Undelivered(s) == [] && Undelivered(t) == s.reader.p.payload
    ensures t.h.parked == s.h.parked && t.h.queued == s.h.queued + [s.reader.p.payload]
  {
    assert s.connector.Reading? && !c.tcp;
  }

  lemma ReaderKeepsInOrder(c: Config, s: State, a: Action, t: State)
    requires InOrder(s) && Ctl(c, s) && s.flags.isOpen && StepReader(c, s, a) == Some(t)
    ensures InOrder(t)
  {
    if a.DirectWrites? || a.DirectFails? {
      DirectKeepsInOrder(c, s, a, t);
    } else if s.reader.InLock? {
      ParkKeepsInOrder(c, s, s.reader.p);
    } else if s.reader.AtQueue? {
      QueueKeepsInOrder(c, s, s.reader.p);
    } else if s.reader.SawReady? && t.reader.Direct? {
      StartDirectKeepsInOrder(c, s, t);
    }
  }

  lemma ReaderKeepsAllSeen(c: Config, s: State, a: Action, t: State)
    requires AllSeen(s) && Phases(c, s) && ReaderPhases(c, s) && s.flags.isOpen && s.flags.connOpen && StepReader(c, s, a) == Some(t)
    ensures AllSeen(t)
  {
    if s.reader.InLock? {
      Associate(s.h.parked, s.h.lost, InHand(s.reader));
    }
  }

  // ---------------------------------------------------------------- the other threads

  lemma ConnectorKeepsInOrder(c: Config, s: State, a: Action, t: State)
    requires InOrder(s) && Ctl(c, s) && s.flags.isOpen && StepConnector(c, s, a) == Some(t)
    ensures InOrder(t)
  {
    ConnectorFrame(c, s, a, t);
    ConnectorStreamFrame(c, s, a, t);
    if s.connector.Flushing? && (a.FlushWrites? || a.FlushFails?) {
      FlushKeepsInOrder(c, s, a, t);
    } else if a.Blocked? && s.connector.Dialed? {
      assert t.stream == s.stream.(dead := true) && t.flags == s.flags && t.h == s.h;
    } else {
      ConnectorShifts(c, s, a, t);
      assert Due(t) == Due(s);
    }
  }

  lemma FlushKeepsInOrder(c: Config, s: State, a: Action, t: State)
    requires InOrder(s) && Ctl(c, s) && s.flags.isOpen && StepConnector(c, s, a) == Some(t)
    requires s.connector.Flushing? && (a.FlushWrites? || a.FlushFails?)
    ensures InOrder(t)
  {
    if s.stream.dead {
      assert s.connector.rest[..a.n] == [] && s.stream.sink + [] == s.stream.sink;
    } else {
      MovePrefix(Due(s), s.stream.sink, s.connector.rest, a.n, Concat(s.connector.todo));
    }
  }

  /** Between writes the dialling goroutine only moves the parked payloads to its own list. */
  lemma ConnectorShifts(c: Config, s: State, a: Action, t: State)
    requires InOrder(s) && Ctl(c, s) && s.flags.isOpen && StepConnector(c, s, a) == Some(t)
    requires !(s.connector.Flushing? && (a.FlushWrites? || a.FlushFails?)) && !(a.Blocked? && s.connector.Dialed?)
    ensures t.stream.sink == s.stream.sink && t.stream.dead == s.stream.dead
    ensures t.h.parked == s.h.parked && t.h.queued == s.h.queued
    ensures Undelivered(t) == Undelivered(s) || (s.stream.dead && t.connector.Failing?)
    ensures !t.flags.snapped ==> !s.flags.snapped && t.stream.pendingData == s.stream.pendingData
    ensures t.connector.Failing? && t.flags.snapped ==> s.stream.dead
  {
  }

  lemma WriterKeepsInOrder(c: Config, s: State, a: Action, t: State)
    requires InOrder(s) && Phases(c, s) && ReaderPhases(c, s) && WriterPhases(c, s) && s.flags.isOpen && StepWriter(s, a) == Some(t)
    ensures InOrder(t)
  {
    if s.writer.Writing? && (a.WriterWrites? || a.WriterFails?) {
      WriteKeepsInOrder(c, s, a, t);
    } else {
      WriterShifts(c, s, a, t);
      assert Due(t) == Due(s);
    }
  }

  /** Between writes the writer only moves payloads from the queue to its batch. */
  lemma WriterShifts(c: Config, s: State, a: Action, t: State)
    requires Phases(c, s) && WriterPhases(c, s) && s.flags.isOpen && StepWriter(s, a) == Some(t)
    requires !(s.writer.Writing? && (a.WriterWrites? || a.WriterFails?))
    ensures t.flags == s.flags && t.connector == s.connector && t.reader == s.reader
    ensures t.stream.sink == s.stream.sink && t.stream.dead == s.stream.dead && t.stream.pendingData == s.stream.pendingData
    ensures t.h.parked == s.h.parked && t.h.queued == s.h.queued
    ensures !s.stream.dead ==> InWriter(t.writer) + Payloads(t.stream.q.pending) == InWriter(s.writer) + Payloads(s.stream.q.pending)
  {
  }

  lemma WriteKeepsInOrder(c: Config, s: State, a: Action, t: State)
    requires InOrder(s) && Phases(c, s) && ReaderPhases(c, s) && WriterPhases(c, s) && s.flags.isOpen && StepWriter(s, a) == Some(t)
    requires s.writer.Writing? && (a.WriterWrites? || a.WriterFails?)
    ensures InOrder(t)
  {
    if s.stream.dead {
      assert s.writer.rest[..a.n] == [] && s.stream.sink + [] == s.stream.sink;
    } else {
      MovePrefix(Due(s), s.stream.sink, s.writer.rest, a.n, Payloads(s.stream.q.pending) + InDirect(s.reader));
    }
  }

  lemma StepKeepsDelivered(c: Config, s: State, a: Action, t: State)
    requires Ctl(c, s) && Delivered(s) && Step(c, s, a) == Some(t)
    ensures Delivered(t)
  {
    match ThreadOf(a)
    case ByClient =>
    case ByReader =>
      ReaderFrame(c, s, a, t);
      if s.flags.isOpen {
        ReaderKeepsInOrder(c, s, a, t);
        if s.flags.connOpen {
          ReaderKeepsAllSeen(c, s, a, t);
        }
      }
    case ByConnector =>
      ConnectorFrame(c, s, a, t);
      ConnectorStreamFrame(c, s, a, t);
      if s.flags.isOpen {
        ConnectorKeepsInOrder(c, s, a, t);
      }
    case ByWriter =>
      WriterFrame(s, a, t);
      if s.flags.isOpen {
        WriterKeepsInOrder(c, s, a, t);
      }
    case ByCloser =>
      if t.flags.isOpen {
        CloserWhileOpen(c, s, a, t);
      }
  }

  lemma WriterFrame(s: State, a: Action, t: State)
    requires StepWriter(s, a) == Some(t)
    ensures t.flags == s.flags && t.reader == s.reader && t.h == s.h.(released := t.h.released)
  {
  }

  lemma EveryRunDelivers(c: Config, trace: seq<Action>)
    ensures Exec(Steps(c), Init(c), trace).Some?
        ==> var t := Exec(Steps(c), Init(c), trace).value; Ctl(c, t) && Delivered(t)
  {
    var inv := (s: State) => Ctl(c, s) && Delivered(s);
    forall s: State, a: Action | inv(s) && Steps(c)(s, a).Some?
      ensures inv(Steps(c)(s, a).value)
    {
      StepKeepsCtl(c, s, a, Step(c, s, a).value);
      StepKeepsDelivered(c, s, a, Step(c, s, a).value);
    }
    Invariance(Steps(c), inv, Init(c), trace);
  }

  /** The ingress queue: its byte count is exact and within the cap, a writer runs exactly while
      ingressWriting holds, and queued payloads of a live stream have one, so no wakeup is lost. */
  lemma IngressQueueIsServed(c: Config, trace: seq<Action>, t: State)
    requires Exec(Steps(c), Init(c), trace) == Some(t)
    ensures t.stream.q.bytes == TotalSize(Size, t.stream.q.pending) <= c.cap
    ensures t.stream.q.active <==> !t.writer.NoWriter?
    ensures t.flags.isOpen && !t.stream.dead && t.stream.q.pending != [] ==> !t.writer.NoWriter?
  {
    EveryRunDelivers(c, trace);
  }

  /** What queueing a packet does, in every run of any client: it is refused, and the stream about to be
      closed, exactly when it would take the queued bytes past the cap; otherwise it goes last, is
      charged next, and starts a writer exactly when none is running. */
  lemma QueueingOutcome(c: Config, trace: seq<Action>, s: State, t: State)
    requires Exec(Steps(c), Init(c), trace) == Some(s) && s.reader.AtQueue? && Step(c, s, ReaderSteps) == Some(t)
    ensures var p := s.reader.p;
      if TotalSize(Size, s.stream.q.pending) + |p.payload| > c.cap then
        t.reader == Refusing(p, true) && t.stream == s.stream && t.writer == s.writer && t.h == ReleaseJob(s.h, p)
      else
        && t.reader == Charging(p, true) && t.stream.q.pending == s.stream.q.pending + [p]
        && t.writer == if s.writer.NoWriter? then Locking else s.writer
  {
    EveryRunDelivers(c, trace);
    OfferRefuses(s.stream.q, Size, c.cap, s.reader.p);
  }

  function Length(x: seq<byte>): nat { |x| }

  /** The parked bytes are counted exactly and within the limit. */
  ghost predicate ParkCounted(s: State)
  {
    s.stream.pendingBytes == TotalSize(Length, s.stream.pendingData) <= PARK_LIMIT
  }

  lemma StepKeepsParkCounted(c: Config, s: State, a: Action, t: State)
    requires ParkCounted(s) && Step(c, s, a) == Some(t)
    ensures ParkCounted(t)
  {
    match ThreadOf(a)
    case ByReader =>
      if s.reader.InLock? && a.ReaderSteps? {
        TotalSizeAppend(Length, s.stream.pendingData, [s.reader.p.payload]);
        assert [s.reader.p.payload][1..] == [];
      } else {
        ReaderParkFrame(c, s, a, t);
      }
    case _ => OthersParkFrame(c, s, a, t);
  }

  lemma ReaderParkFrame(c: Config, s: State, a: Action, t: State)
    requires StepReader(c, s, a) == Some(t) && !(s.reader.InLock? && a.ReaderSteps?)
    ensures t.stream.pendingData == s.stream.pendingData && t.stream.pendingBytes == s.stream.pendingBytes
  {
  }

  lemma OthersParkFrame(c: Config, s: State, a: Action, t: State)
    requires Step(c, s, a) == Some(t) && !ThreadOf(a).ByReader?
    ensures (t.stream.pendingData == s.stream.pendingData && t.stream.pendingBytes == s.stream.pendingBytes)
      || (t.stream.pendingData == [] && t.stream.pendingBytes == 0)
  {
  }

  /** In every run of any client pendingBytes is the summed length of pendingData, at most 16 MiB. */
  lemma ParkedWithinLimit(c: Config, trace: seq<Action>, t: State)
    requires Exec(Steps(c), Init(c), trace) == Some(t)
    ensures t.stream.pendingBytes == TotalSize(Length, t.stream.pendingData) <= 16 * 1024 * 1024
  {
    forall s: State, a: Action | ParkCounted(s) && Steps(c)(s, a).Some?
      ensures ParkCounted(Steps(c)(s, a).value)
    {
      StepKeepsParkCounted(c, s, a, Step(c, s, a).value);
    }
    Invariance(Steps(c), ParkCounted, Init(c), trace);
  }

  /** From every state of an open stream whose writes succeed, the ingress writer alone brings all that is
      queued to the target, in order, and goes. */
  lemma {:induction false} IngressDrains(c: Config, s: State) returns (trace: seq<Action>, t: State)
    requires Ctl(c, s) && s.flags.isOpen && !s.stream.dead && !s.reader.Crashed?
    ensures Exec(Steps(c), s, trace) == Some(t) && forall a <- trace :: ThreadOf(a) == ByWriter
    ensures t.writer.NoWriter? && t.stream.q.pending == [] && !t.stream.dead
    ensures t.stream.sink == s.stream.sink + InWriter(s.writer) + Payloads(s.stream.q.pending)
    decreases |s.stream.q.pending|, WriterPhase(s.writer)
  {
    if s.writer.NoWriter? {
      assert s.stream.sink + [] + [] == s.stream.sink;
      return [], s;
    }
    var a, u := WriterAdvances(c, s);
    var more;
    more, t := IngressDrains(c, u);
    trace := [a] + more;
  }

  /** How far the ingress writer is from its next lock section, and there from leaving. */
  function WriterPhase(w: Writer): nat
  {
    match w
    case Taken(_) => 5
    case Writing(_, rest) => if rest == [] then 3 else 4
    case Releasing(_, _) => 2
    case Locking => 1
    case _ => 0
  }

  lemma WriterAdvances(c: Config, s: State) returns (a: Action, u: State)
    requires Ctl(c, s) && s.flags.isOpen && !s.stream.dead && !s.reader.Crashed? && !s.writer.NoWriter?
    ensures ThreadOf(a) == ByWriter && Step(c, s, a) == Some(u) && Ctl(c, u)
    ensures u.flags.isOpen && !u.stream.dead && u.reader == s.reader
    ensures u.stream.sink + InWriter(u.writer) + Payloads(u.stream.q.pending) == s.stream.sink + InWriter(s.writer) + Payloads(s.stream.q.pending)
    ensures || |u.stream.q.pending| < |s.stream.q.pending|
            || (u.stream.q.pending == s.stream.q.pending && WriterPhase(u.writer) < WriterPhase(s.writer))
  {
    a := if s.writer.Writing? && s.writer.rest != [] then WriterWrites(|s.writer.rest|) else WriterSteps;
    u := Step(c, s, a).value;
    StepKeepsCtl(c, s, a, u);
    if s.writer.Writing? {
      assert s.writer.rest[..|s.writer.rest|] == s.writer.rest;
    }
  }

  /** While the stream is open the target has a prefix of the payloads parked before the snapshot
      followed by those processed after ready, and every arrival is in one of three groups in arrival
      order: parked, lost, processed. */
  lemma DeliveryInArrivalOrder(c: Config, trace: seq<Action>, t: State)
    requires Exec(Steps(c), Init(c), trace) == Some(t) && t.flags.isOpen
    ensures t.stream.sink <= Concat(t.h.parked + t.h.queued)
    ensures t.flags.connOpen ==> t.h.arrivals == t.h.parked + t.h.lost + t.h.queued + InHand(t.reader)
    ensures t.h.queued != [] ==> t.flags.ready
  {
    EveryRunDelivers(c, trace);
    ConcatAppend(t.h.parked, t.h.queued);
  }

  /** Nothing else goes missing: with no write error, what is written plus what is still on its way is
      everything that arrived exactly when nothing was parked between the snapshot and ready. */
  lemma MissingExactlyTheLatePark(c: Config, trace: seq<Action>, t: State)
    requires Exec(Steps(c), Init(c), trace) == Some(t)
    requires t.flags.isOpen && t.flags.connOpen && !t.stream.dead && InHand(t.reader) == []
    ensures t.stream.sink + Undelivered(t) == Concat(t.h.parked) + Concat(t.h.queued)
    ensures t.stream.sink + Undelivered(t) == Concat(t.h.arrivals) <==> Concat(t.h.lost) == []
  {
    EveryRunDelivers(c, trace);
    assert t.h.arrivals == t.h.parked + t.h.lost + t.h.queued;
    ConcatAppend(t.h.parked + t.h.lost, t.h.queued);
    ConcatAppend(t.h.parked, t.h.lost);
    var p, l, q := Concat(t.h.parked), Concat(t.h.lost), Concat(t.h.queued);
    assert |p + l + q| == |p + q| + |l|;
    if l == [] {
      assert p + l + q == p + q;
    }
  }

  // ---------------------------------------------------------------- a run that loses data

  /** A payload parked between the snapshot and ready is never written, although the stream is open,
      ready and idle. */
  lemma LateParkIsLost(c: Config, x: seq<byte>) returns (t: State)
    requires c.L >= 1 && (c.confirm ==> c.tcp) && |x| <= PARK_LIMIT
    ensures Reaches(Steps(c), Init(c), t)
    ensures t.flags.isOpen && t.flags.connOpen && t.flags.ready && !t.stream.dead && t.reader == Idle && t.client.up == []
    ensures t.h.arrivals == [x] == t.h.lost && t.stream.sink == [] && Undelivered(t) == []
    ensures t.client.credit == c.L - 1 && t.client.down == [] && t.h.granted
  {
    t := SnapshotTaken(c);
    t := ParkedLate(c, x, t);
    t := BecomesReady(c, x, t);
  }

  ghost predicate Fresh(c: Config, s: State)
  {
    && s.flags.isOpen && s.flags.connOpen && !s.flags.ready && !s.stream.dead
    && s.writer == NoWriter && s.stream.sink == [] && s.stream.q == Guarded([], 0, false)
    && s.h.parked == s.h.queued == [] && s.client.down == []
  }

  lemma SnapshotTaken(c: Config) returns (s: State)
    requires c.confirm ==> c.tcp
    ensures Reaches(Steps(c), Init(c), s) && Fresh(c, s)
    ensures s.flags.snapped && s.reader == Idle && s.connector == Flushing([], []) && s.stream.pendingBytes == 0
    ensures s.client == Client(c.L, [], []) && s.h == Init(c).h.(granted := true)
  {
    ReachesSelf(Steps(c), Init(c));
    s := Go(Steps(c), Init(c), Init(c), Starts);
    s := Go(Steps(c), Init(c), s, DialEnds(true));
    s := Go(Steps(c), Init(c), s, ConnectorSteps);
    if c.confirm {
      assert s.client.down == [c.L];
      s := Go(Steps(c), Init(c), s, ClientReceives);
    }
    s := Go(Steps(c), Init(c), s, ConnectorSteps);
  }

  lemma ParkedLate(c: Config, x: seq<byte>, s0: State) returns (s: State)
    requires c.L >= 1 && |x| <= PARK_LIMIT
    requires Reaches(Steps(c), Init(c), s0) && Fresh(c, s0)
    requires s0.flags.snapped && s0.reader == Idle && s0.connector == Flushing([], []) && s0.stream.pendingBytes == 0
    requires s0.client == Client(c.L, [], []) && s0.h.arrivals == s0.h.lost == [] && s0.h.granted
    ensures Reaches(Steps(c), Init(c), s) && Fresh(c, s)
    ensures s.flags.snapped && s.reader == Idle && s.connector == Flushing([], [])
    ensures s.client == Client(c.L - 1, [], []) && s.h.arrivals == s.h.lost == [x] && s.h.granted
  {
    s := Go(Steps(c), Init(c), s0, ClientSends(x));
    s := Go(Steps(c), Init(c), s, Arrive(false));
    assert s.h.arrivals == [x];
    s := ParkInHand(c, x, s);
  }

  lemma ParkInHand(c: Config, x: seq<byte>, s0: State) returns (s: State)
    requires |x| <= PARK_LIMIT
    requires Reaches(Steps(c), Init(c), s0) && Fresh(c, s0)
    requires s0.flags.snapped && s0.reader == Got(Job(x, None)) && s0.connector == Flushing([], []) && s0.stream.pendingBytes == 0
    requires s0.h.lost == []
    ensures Reaches(Steps(c), Init(c), s) && Fresh(c, s)
    ensures s.flags == s0.flags && s.reader == Idle && s.connector == s0.connector && s.client == s0.client
    ensures s.h == s0.h.(lost := [x])
  {
    s := Go(Steps(c), Init(c), s0, ReaderSteps);
    s := Go(Steps(c), Init(c), s, ReaderSteps);
    s := Go(Steps(c), Init(c), s, ReaderSteps);
    assert s == s0.(reader := InLock(Job(x, None)), race := s.race);
    s := Go(Steps(c), Init(c), s, ReaderSteps);
    s := Go(Steps(c), Init(c), s, ReaderSteps);
  }

  lemma BecomesReady(c: Config, x: seq<byte>, s0: State) returns (s: State)
    requires Reaches(Steps(c), Init(c), s0) && Fresh(c, s0)
    requires s0.flags.snapped && s0.reader == Idle && s0.connector == Flushing([], [])
    requires s0.h.arrivals == s0.h.lost == [x]
    ensures Reaches(Steps(c), Init(c), s)
    ensures s.flags == s0.flags.(ready := true, ingressActive := s.flags.ingressActive)
    ensures s.stream == s0.stream && s.reader == Idle && s.h == s0.h && s.client == s0.client && Undelivered(s) == []
  {
    s := Go(Steps(c), Init(c), s0, ConnectorSteps);
    s := Go(Steps(c), Init(c), s, ConnectorSteps);
    s := Go(Steps(c), Init(c), s, ConnectorSteps);
  }
}

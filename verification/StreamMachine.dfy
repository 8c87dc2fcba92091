/** One stream from client to target as a transition system: the client and its two channels, the
    connection's readLoop thread, the goroutine of handleConnect, the on-demand ingress writer and
    the close call that wins, interleaved at every lock section, atomic load, store and
    compare-and-swap. */
module StreamMachine {
  import opened Wrappers
  import opened Bytes
  import opened BatchQueue

  /** Limits and kind of the stream: BufferRemainingLength, PendingQueueSize, TCP or UDP, whether the
      connection agreed on stream confirmation, and whether the client keeps to its credit, which the
      server does not check. */
  datatype Config = Config(L: nat, cap: nat, tcp: bool, confirm: bool, obedient: bool)

  const PARK_LIMIT: nat := 16 * 1024 * 1024

  /** A DATA payload with the receive buffer it lives in; None when it was reassembled from
      fragments, or was copied out of its buffer. */
  datatype Job = Job(payload: seq<byte>, lease: Option<nat>)

  function Size(j: Job): nat { |j.payload| }

  /** Where the readLoop thread is in handleDataPacket, p being the packet it carries.  Crashed is a
      Write on a nil connection: the process is gone, and the run with it. */
  datatype Reader =
    | Idle
    | Got(p: Job)
    | Passed(p: Job)
    | AtLock(p: Job)
    | InLock(p: Job)
    | SawReady(p: Job)
    | Checks(p: Job, n: nat)
    | AtQueue(p: Job)
    | Direct(p: Job, rest: seq<byte>)
    | Broken(p: Job)
    | Crashed(p: Job)
    | Refusing(p: Job, keep: bool)
    | Charging(p: Job, keep: bool)
    | Returning(p: Job, keep: bool)

  /** Where the handleConnect goroutine is; Reading is readFromConnection, which only sends. */
  datatype Connector =
    | Checking
    | Dialing
    | Dialed
    | Snapping
    | Flushing(todo: seq<seq<byte>>, rest: seq<byte>)
    | Flushed
    | Activated
    | Reading
    | Failing
    | Exited

  /** The ingress writer between being started and clearing ingressWriting. */
  datatype Writer =
    | NoWriter
    | Locking
    | Taken(batch: seq<Job>)
    | Writing(batch: seq<Job>, rest: seq<byte>)
    | Releasing(batch: seq<Job>, leave: bool)
    | Clearing

  datatype Closer = NotClosing | Won | Signalled | SocketClosed | SawActive | Deactivated | Draining(jobs: seq<Job>) | Closed

  datatype Client = Client(credit: nat, up: seq<seq<byte>>, down: seq<nat>)

  /** The shared flags: connection open, isOpen, connReadyDone, type and credit set, conn assigned,
      ingressActive, and (history) the snapshot taken. */
  datatype Flags = Flags(connOpen: bool, isOpen: bool, ready: bool, started: bool, haveConn: bool, ingressActive: bool, snapped: bool)

  /** The data: credit counter, parked payloads, ingress queue, and the target connection. */
  datatype Stream = Stream(
    bufferRemaining: nat,
    pendingData: seq<seq<byte>>,
    pendingBytes: nat,
    q: Guarded<Job>,
    dead: bool,
    sink: seq<byte>)

  /** History: payloads in arrival order; those parked before and after the snapshot; those handed to
      the ingress queue or written directly; packets charged; CONTINUEs sent on exhaustion; whether
      the client was given its first credit; leases issued and released. */
  datatype History = History(
    arrivals: seq<seq<byte>>,
    parked: seq<seq<byte>>,
    lost: seq<seq<byte>>,
    queued: seq<seq<byte>>,
    charged: nat,
    continues: nat,
    granted: bool,
    issued: nat,
    released: seq<nat>)

  /** Ingress writers that cleared ingressWriting after an error and have yet to return from close; and
      history of the races with close: whether the reader's packet found the stream open, whether close
      had won when it found the stream ready, the packet that stood before the queue lock when it won, and the packets appended after its drain
      behind a running writer. */
  datatype Race = Race(leaving: nat, openAtPass: bool, readyByClose: bool, atClose: Option<Job>, late: seq<Job>)

  /** History of the target connection: Close called on it; its dial ended after the winning close had
      looked for it; it was refused by the failure signature. */
  datatype Sock = Sock(closed: bool, dialedLate: bool, refused: bool)

  datatype State = State(
    client: Client,
    flags: Flags,
    stream: Stream,
    reader: Reader,
    connector: Connector,
    writer: Writer,
    closer: Closer,
    h: History,
    race: Race,
    sock: Sock)

  function Init(c: Config): State
  {
    State(Client(if c.confirm then 0 else c.L, [], []),
          Flags(true, true, false, false, false, false, false),
          Stream(0, [], 0, Guarded([], 0, false), false, []),
          Idle, Checking, NoWriter, NotClosing,
          History([], [], [], [], 0, 0, !c.confirm, 0, []),
          Race(0, false, false, None, []),
          Sock(false, false, false))
  }

  datatype Action =
    // the client
    | ClientSends(payload: seq<byte>)
    | ClientReceives
    // the readLoop thread: next atomic operation, with the environment's answer where there is one
    | Arrive(pooled: bool)
    | ReaderSteps
    | BandwidthRefuses
    | DirectWrites(n: nat)
    | DirectFails(n: nat)
    // the handleConnect goroutine
    | Blocked
    | Starts
    | DialEnds(ok: bool)
    | ConnectorSteps
    | FlushWrites(n: nat)
    | FlushFails(n: nat)
    // the ingress writer
    | WriterSteps
    | WriterWrites(n: nat)
    | WriterFails(n: nat)
    | WriterLeaves
    // close, called by anyone; and the whole connection going down
    | CloseCalled
    | CloserSteps
    | ConnectionCloses

  function ReleaseJob(h: History, j: Job): History
  {
    if j.lease.Some? then h.(released := h.released + [j.lease.value]) else h
  }

  function Leases(jobs: seq<Job>): seq<nat>
  {
    if jobs == [] then [] else (if jobs[0].lease.Some? then [jobs[0].lease.value] else []) + Leases(jobs[1..])
  }

  function ReleaseAll(h: History, jobs: seq<Job>): History { h.(released := h.released + Leases(jobs)) }

  function Payloads(jobs: seq<Job>): seq<byte>
  {
    if jobs == [] then [] else jobs[0].payload + Payloads(jobs[1..])
  }

  // ---------------------------------------------------------------- the client

  function StepClient(c: Config, s: State, a: Action): Option<State>
  {
    match a
    case ClientSends(payload) =>
      if c.obedient && s.client.credit == 0 then None
      else
        var left := if s.client.credit == 0 then 0 else s.client.credit - 1;
        Some(s.(client := s.client.(credit := left, up := s.client.up + [payload])))
    case ClientReceives =>
      if s.client.down == [] then None
      else Some(s.(client := s.client.(credit := s.client.down[0], down := s.client.down[1..])))
    case _ => None
  }

  // ---------------------------------------------------------------- the readLoop thread

  /** The counter after one charged packet, and whether a CONTINUE goes out. */
  function Charge(L: nat, remaining: nat): (nat, bool)
    requires remaining > 0
  {
    if remaining - 1 == 0 then (L, true) else (remaining - 1, false)
  }

  function ChargeStep(c: Config, s: State): State
    requires s.stream.bufferRemaining > 0
  {
    var (left, exhausted) := Charge(c.L, s.stream.bufferRemaining);
    State(if exhausted && s.flags.connOpen then s.client.(down := s.client.down + [left]) else s.client,
          s.flags,
          s.stream.(bufferRemaining := left),
          s.reader, s.connector, s.writer, s.closer,
          s.h.(charged := s.h.charged + 1, continues := s.h.continues + if exhausted then 1 else 0),
          s.race,
          s.sock)
  }

  function Park(s: State, p: Job): State
  {
    if s.stream.pendingBytes + |p.payload| > PARK_LIMIT then s.(reader := Refusing(p, false))
    else s.(stream := s.stream.(pendingData := s.stream.pendingData + [p.payload],
                                pendingBytes := s.stream.pendingBytes + |p.payload|),
            reader := Returning(p, false),
            h := if s.flags.snapped then s.h.(lost := s.h.lost + [p.payload]) else s.h.(parked := s.h.parked + [p.payload]))
  }

  function Enqueue(c: Config, s: State, p: Job): State
  {
    var (q, outcome) := Offer(s.stream.q, Size, c.cap, p);
    if outcome.Refused? then s.(reader := Refusing(p, true), h := ReleaseJob(s.h, p))
    else s.(stream := s.stream.(q := q),
            reader := Charging(p, true),
            writer := if outcome.QueuedAndStart? then Locking else s.writer,
            h := s.h.(queued := s.h.queued + [p.payload]),
            race := if outcome.Queued? && PastDrain(s.closer) then s.race.(late := s.race.late + [p]) else s.race)
  }

  /** Close has looked for the target connection. */
  predicate PastLook(k: Closer) { !k.NotClosing? && !k.Won? && !k.Signalled? }

  /** Close has drained the ingress queue, or had none to drain. */
  predicate PastDrain(k: Closer) { k.Draining? || k.Closed? }

  /** The load of connReadyDone finds it set. */
  function FindReady(s: State, p: Job): State
  {
    s.(reader := SawReady(p), race := s.race.(readyByClose := !s.flags.isOpen))
  }

  /** The atomic loads before queueing alternate between ingressActive and isOpen, twice. */
  function NextCheck(s: State, p: Job, n: nat): State
  {
    var passes := if n % 2 == 0 then s.flags.ingressActive else s.flags.isOpen;
    if !passes then s.(reader := Returning(p, true), h := ReleaseJob(s.h, p))
    else s.(reader := if n < 3 then Checks(p, n + 1) else AtQueue(p))
  }

  function StepReader(c: Config, s: State, a: Action): Option<State>
  {
    match a
    case Arrive(pooled) =>
      if !s.reader.Idle? || s.client.up == [] then None
      else
        var payload := s.client.up[0];
        Some(s.(client := s.client.(up := s.client.up[1..]),
                reader := Got(Job(payload, if pooled then Some(s.h.issued) else None)),
                h := s.h.(arrivals := s.h.arrivals + [payload], issued := s.h.issued + if pooled then 1 else 0)))
    case BandwidthRefuses =>
      if s.reader.Passed? && !s.flags.connOpen then Some(s.(reader := Returning(s.reader.p, false))) else None
    case DirectWrites(n) =>
      if !s.reader.Direct? || !s.flags.haveConn || s.stream.dead || n == 0 || n > |s.reader.rest| then None
      else Some(s.(stream := s.stream.(sink := s.stream.sink + s.reader.rest[..n]), reader := Direct(s.reader.p, s.reader.rest[n..])))
    case DirectFails(n) =>
      if !s.reader.Direct? || !s.flags.haveConn || s.reader.rest == [] || n > |s.reader.rest| || (s.stream.dead && n > 0) then None
      else Some(s.(stream := s.stream.(sink := s.stream.sink + s.reader.rest[..n], dead := true), reader := Broken(s.reader.p)))
    case ReaderSteps => ReaderMoves(c, s)
    case _ => None
  }

  function ReaderMoves(c: Config, s: State): Option<State>
  {
    match s.reader
    case Idle => None
    case Got(p) =>
      Some(s.(reader := if s.flags.isOpen then Passed(p) else Returning(p, false),
              race := s.race.(openAtPass := s.flags.isOpen)))
    case Passed(p) => Some(if s.flags.ready then FindReady(s, p) else s.(reader := AtLock(p)))
    case AtLock(p) => Some(if s.flags.ready then FindReady(s, p) else s.(reader := InLock(p)))
    case InLock(p) => Some(Park(s, p))
    case SawReady(p) =>
      Some(if c.tcp && s.flags.started && s.flags.ingressActive then s.(reader := Checks(p, 0))
           else s.(reader := Direct(p, p.payload), h := s.h.(queued := s.h.queued + [p.payload])))
    case Checks(p, n) => Some(NextCheck(s, p, n))
    case AtQueue(p) => Some(Enqueue(c, s, p))
    case Direct(p, rest) =>
      if rest != [] then (if s.flags.haveConn then None else Some(s.(reader := Crashed(p))))
      else Some(s.(reader := if c.tcp && s.flags.started then Charging(p, false) else Returning(p, false)))
    case Broken(p) => if s.flags.isOpen then None else Some(s.(reader := Returning(p, false)))
    case Crashed(_) => None
    case Refusing(p, keep) => if s.flags.isOpen then None else Some(s.(reader := Returning(p, keep)))
    case Charging(p, keep) =>
      if s.stream.bufferRemaining == 0 then None
      else Some(ChargeStep(c, s).(reader := Returning(p, keep)))
    case Returning(p, keep) => Some(s.(reader := Idle, h := if keep then s.h else ReleaseJob(s.h, p)))
  }

  // ---------------------------------------------------------------- the handleConnect goroutine

  function StepConnector(c: Config, s: State, a: Action): Option<State>
  {
    match a
    case Blocked =>
      if s.connector.Checking? then Some(s.(connector := Failing))
      else if s.connector.Dialed? then
        Some(s.(connector := Failing, stream := s.stream.(dead := true), sock := s.sock.(closed := true, refused := true)))
      else None
    case Starts =>
      if s.connector.Checking? then Some(s.(connector := Dialing, flags := s.flags.(started := true), stream := s.stream.(bufferRemaining := c.L)))
      else None
    case DialEnds(ok) =>
      if !s.connector.Dialing? then None
      else if !ok then Some(s.(connector := Failing))
      else Some(s.(connector := Dialed, flags := s.flags.(haveConn := true),
                   sock := s.sock.(dialedLate := PastLook(s.closer))))
    case FlushWrites(n) =>
      if !s.connector.Flushing? || s.stream.dead || n == 0 || n > |s.connector.rest| then None
      else Some(s.(stream := s.stream.(sink := s.stream.sink + s.connector.rest[..n]),
                   connector := Flushing(s.connector.todo, s.connector.rest[n..])))
    case FlushFails(n) =>
      if !s.connector.Flushing? || s.connector.rest == [] || n > |s.connector.rest| || (s.stream.dead && n > 0) then None
      else Some(s.(stream := s.stream.(sink := s.stream.sink + s.connector.rest[..n], dead := true), connector := Failing))
    case ConnectorSteps => ConnectorMoves(c, s)
    case _ => None
  }

  function ConnectorMoves(c: Config, s: State): Option<State>
  {
    match s.connector
    case Dialed =>
      Some(if c.confirm && c.tcp
           then s.(connector := Snapping, h := s.h.(granted := true),
                   client := if s.flags.connOpen then s.client.(down := s.client.down + [s.stream.bufferRemaining]) else s.client)
           else s.(connector := Snapping))
    case Snapping =>
      if s.reader.InLock? then None
      else Some(s.(connector := Flushing(s.stream.pendingData, []),
                   stream := s.stream.(pendingData := [], pendingBytes := 0),
                   flags := s.flags.(snapped := true)))
    case Flushing(todo, rest) =>
      if rest != [] then None
      else if todo == [] then Some(s.(connector := Flushed))
      else if !s.flags.isOpen then Some(s.(connector := Failing))
      else Some(s.(connector := Flushing(todo[1..], todo[0])))
    case Flushed =>
      Some(s.(connector := Activated, flags := if c.tcp then s.flags.(ingressActive := true) else s.flags))
    case Activated => Some(s.(connector := Reading, flags := s.flags.(ready := true)))
    case Failing => if s.flags.isOpen then None else Some(s.(connector := Exited, flags := s.flags.(ready := true)))
    case _ => None
  }

  // ---------------------------------------------------------------- the ingress writer

  function StepWriter(s: State, a: Action): Option<State>
  {
    match (s.writer, a)
    case (Locking, WriterSteps) =>
      var (q, taken) := TakeAll(s.stream.q, Size);
      Some(s.(stream := s.stream.(q := q), writer := match taken case None => NoWriter case Some(batch) => Taken(batch)))
    case (Taken(batch), WriterSteps) =>
      Some(s.(writer := if s.flags.isOpen then Writing(batch, Payloads(batch)) else Releasing(batch, true)))
    case (Writing(batch, rest), WriterWrites(n)) =>
      if s.stream.dead || n == 0 || n > |rest| then None
      else Some(s.(stream := s.stream.(sink := s.stream.sink + rest[..n]), writer := Writing(batch, rest[n..])))
    case (Writing(batch, rest), WriterFails(n)) =>
      if rest == [] || n > |rest| || (s.stream.dead && n > 0) then None
      else Some(s.(stream := s.stream.(sink := s.stream.sink + rest[..n], dead := true), writer := Releasing(batch, true)))
    case (Writing(batch, rest), WriterSteps) =>
      if rest != [] then None else Some(s.(writer := Releasing(batch, false)))
    case (Releasing(batch, leave), WriterSteps) =>
      Some(s.(writer := if leave then Clearing else Locking, h := ReleaseAll(s.h, batch)))
    case (Clearing, WriterSteps) =>
      Some(s.(writer := NoWriter, stream := s.stream.(q := Deactivate(s.stream.q)),
              race := s.race.(leaving := s.race.leaving + 1)))
    case (_, WriterLeaves) =>
      if s.race.leaving == 0 || s.flags.isOpen then None
      else Some(s.(race := s.race.(leaving := s.race.leaving - 1)))
    case _ => None
  }

  // ---------------------------------------------------------------- close

  function StepCloser(s: State, a: Action): Option<State>
  {
    match a
    case ConnectionCloses => Some(s.(flags := s.flags.(connOpen := false)))
    case CloseCalled =>
      if !s.flags.isOpen then Some(s)
      else
        var before := if s.reader.AtQueue? then Some(s.reader.p) else None;
        Some(s.(closer := Won, flags := s.flags.(isOpen := false), race := s.race.(atClose := before)))
    case CloserSteps => CloserMoves(s)
    case _ => None
  }

  function CloserMoves(s: State): Option<State>
  {
    match s.closer
    case Won => Some(s.(closer := Signalled, flags := s.flags.(ready := true)))
    case Signalled =>
      Some(s.(closer := SocketClosed,
              stream := if s.flags.haveConn then s.stream.(dead := true) else s.stream,
              sock := if s.flags.haveConn then s.sock.(closed := true) else s.sock))
    case SocketClosed => Some(s.(closer := if s.flags.ingressActive then SawActive else Closed))
    case SawActive => Some(s.(closer := Deactivated, flags := s.flags.(ingressActive := false)))
    case Deactivated =>
      var (q, jobs) := DropAll(s.stream.q);
      Some(s.(closer := Draining(jobs), stream := s.stream.(q := q)))
    case Draining(jobs) => Some(s.(closer := Closed, h := ReleaseAll(s.h, jobs)))
    case _ => None
  }

  datatype Thread = ByClient | ByReader | ByConnector | ByWriter | ByCloser

  function ThreadOf(a: Action): Thread
  {
    match a
    case ClientSends(_) => ByClient
    case ClientReceives => ByClient
    case Arrive(_) => ByReader
    case ReaderSteps => ByReader
    case BandwidthRefuses => ByReader
    case DirectWrites(_) => ByReader
    case DirectFails(_) => ByReader
    case WriterSteps => ByWriter
    case WriterWrites(_) => ByWriter
    case WriterFails(_) => ByWriter
    case WriterLeaves => ByWriter
    case CloseCalled => ByCloser
    case CloserSteps => ByCloser
    case ConnectionCloses => ByCloser
    case _ => ByConnector
  }

  function Step(c: Config, s: State, a: Action): Option<State>
  {
    if s.reader.Crashed? then None
    else match ThreadOf(a)
      case ByClient => StepClient(c, s, a)
      case ByReader => StepReader(c, s, a)
      case ByConnector => StepConnector(c, s, a)
      case ByWriter => StepWriter(s, a)
      case ByCloser => StepCloser(s, a)
  }

  function Steps(c: Config): (State, Action) -> Option<State> { (s, a) => Step(c, s, a) }
}

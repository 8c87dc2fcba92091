/** The connection's write queue as a transition system: any number of submitWrite calls, the
    runWriter goroutines they start, and close, interleaved at every lock section, atomic load
    and compare-and-swap.  The sections themselves are those of BatchQueue. */
module WriteQueue {
  import opened Wrappers
  import opened Bytes
  import opened BatchQueue

  /** A write request; hasBuf says it carries a pooled buffer, hasDone that someone waits on it. */
  datatype Req = Req(id: nat, data: seq<byte>, hasBuf: bool, hasDone: bool)

  function Size(r: Req): nat { |r.data| }

  /** Where a runWriter goroutine is.  Locking is before its lock section; Writing holds the swapped
      batch and the bytes not yet accepted; Finishing is before buffers are returned and waiters
      signalled; Failing before the section that clears writeActive; Leaving before its close call. */
  datatype Writer =
    | Locking
    | Writing(batch: seq<Req>, rest: seq<byte>)
    | Finishing(done: seq<Req>, err: bool)
    | Failing
    | Leaving
    | Exited

  /** Progress of the one close call that wins the compare-and-swap. */
  datatype Closer = NotClosing | Won | SocketClosed | Releasing(drained: seq<Req>) | Closed

  /** History variables record the requests seen (arrived), refused and completed, those accepted in
      lock order, the done signals sent, the buffers returned, who had passed the closed check when the
      compare-and-swap was won, and who was appended after the drain behind a running writer. */
  datatype State = State(
    g: Guarded<Req>,
    closed: bool,
    checked: seq<Req>,
    owingClose: nat,
    writers: seq<Writer>,
    closer: Closer,
    dead: bool,
    wire: seq<byte>,
    arrived: seq<Req>,
    accepted: seq<Req>,
    refused: seq<Req>,
    completed: seq<Req>,
    signals: seq<Req>,
    returned: seq<Req>,
    checkedAtClose: seq<Req>,
    late: seq<Req>)

  function Init(): State
  {
    State(Guarded([], 0, false), false, [], 0, [], NotClosing, false, [],
          [], [], [], [], [], [], [], [])
  }

  datatype Action =
    | Check(req: Req)
    | Enqueue(k: nat)
    | Take(i: nat)
    | WriteSome(i: nat, n: nat)
    | WriteFails(i: nat, n: nat)
    | WriteEnds(i: nat)
    | Finish(i: nat)
    | ClearActive(i: nat)
    | WriterCloses(i: nat)
    | RefusedCloses
    | OtherCloses
    | CloseSocket
    | DrainQueue
    | ReleaseDrained

  /** Which requests are meant: all, those with a waiter, those with a buffer. */
  datatype Kind = Any | Waiter | Buffer

  predicate Is(kind: Kind, r: Req) { kind.Any? || (kind.Waiter? && r.hasDone) || (kind.Buffer? && r.hasBuf) }

  function Select(kind: Kind, rs: seq<Req>): seq<Req>
  {
    if rs == [] then [] else (if Is(kind, rs[0]) then [rs[0]] else []) + Select(kind, rs[1..])
  }

  /** How many requests of a kind carry the id. */
  function Count(kind: Kind, id: nat, rs: seq<Req>): nat
  {
    if rs == [] then 0 else (if Is(kind, rs[0]) && rs[0].id == id then 1 else 0) + Count(kind, id, rs[1..])
  }

  function Data(rs: seq<Req>): seq<byte>
  {
    if rs == [] then [] else rs[0].data + Data(rs[1..])
  }

  function Refuse(s: State, r: Req): State
  {
    s.(refused := s.refused + [r],
       signals := s.signals + Select(Waiter, [r]),
       returned := s.returned + Select(Buffer, [r]))
  }

  function Complete(s: State, rs: seq<Req>): State
  {
    s.(completed := s.completed + rs,
       signals := s.signals + Select(Waiter, rs),
       returned := s.returned + Select(Buffer, rs))
  }

  function SetWriter(s: State, i: nat, w: Writer): State
    requires i < |s.writers|
  {
    s.(writers := s.writers[i := w])
  }

  /** The compare-and-swap at the head of close. */
  function CasClose(s: State): State
  {
    if s.closed then s else s.(closed := true, closer := Won, checkedAtClose := s.checked)
  }

  /** Close has emptied the queue. */
  predicate Drained(c: Closer) { c.Releasing? || c.Closed? }

  function StepSubmit(cap: nat, s: State, a: Action): Option<State>
    requires a.Check? || a.Enqueue?
  {
    match a
    case Check(r) =>
      if (exists q <- s.arrived :: q.id == r.id) then None
      else
        var t := s.(arrived := s.arrived + [r]);
        Some(if s.closed then Refuse(t, r) else t.(checked := t.checked + [r]))
    case Enqueue(k) =>
      if k >= |s.checked| then None
      else
        var r := s.checked[k];
        var t := s.(checked := s.checked[..k] + s.checked[k + 1..]);
        var (g, outcome) := Offer(s.g, Size, cap, r);
        match outcome
        case Refused => Some(Refuse(t, r).(owingClose := t.owingClose + 1))
        case Queued =>
          Some(t.(g := g, accepted := t.accepted + [r], late := if Drained(s.closer) then t.late + [r] else t.late))
        case QueuedAndStart => Some(t.(g := g, accepted := t.accepted + [r], writers := t.writers + [Locking]))
  }

  function StepWriter(s: State, i: nat, a: Action): Option<State>
    requires i < |s.writers|
  {
    match (s.writers[i], a)
    case (Locking, Take(_)) =>
      var (g, taken) := TakeAll(s.g, Size);
      Some(match taken
           case None => SetWriter(s, i, Exited).(g := g)
           case Some(batch) => SetWriter(s, i, Writing(batch, Data(batch))).(g := g))
    case (Writing(batch, rest), WriteSome(_, n)) =>
      if s.dead || n == 0 || n > |rest| then None
      else Some(SetWriter(s, i, Writing(batch, rest[n..])).(wire := s.wire + rest[..n]))
    case (Writing(batch, rest), WriteFails(_, n)) =>
      if rest == [] || n > |rest| || (s.dead && n > 0) then None
      else Some(SetWriter(s, i, Finishing(batch, true)).(wire := s.wire + rest[..n], dead := true))
    case (Writing(batch, rest), WriteEnds(_)) =>
      if rest != [] then None else Some(SetWriter(s, i, Finishing(batch, false)))
    case (Finishing(batch, err), Finish(_)) =>
      Some(SetWriter(Complete(s, batch), i, if err then Failing else Locking))
    case (Failing, ClearActive(_)) =>
      Some(SetWriter(s, i, Leaving).(g := Deactivate(s.g)))
    case (Leaving, WriterCloses(_)) =>
      Some(SetWriter(CasClose(s), i, Exited))
    case _ => None
  }

  function StepClose(s: State, a: Action): Option<State>
  {
    match (s.closer, a)
    case (_, OtherCloses) => Some(CasClose(s))
    case (_, RefusedCloses) => if s.owingClose == 0 then None else Some(CasClose(s).(owingClose := s.owingClose - 1))
    case (Won, CloseSocket) => Some(s.(closer := SocketClosed, dead := true))
    case (SocketClosed, DrainQueue) =>
      var (g, drained) := DropAll(s.g);
      Some(s.(g := g, closer := Releasing(drained)))
    case (Releasing(drained), ReleaseDrained) => Some(Complete(s, drained).(closer := Closed))
    case _ => None
  }

  function WriterOf(a: Action): Option<nat>
  {
    match a
    case Take(i) => Some(i)
    case WriteSome(i, _) => Some(i)
    case WriteFails(i, _) => Some(i)
    case WriteEnds(i) => Some(i)
    case Finish(i) => Some(i)
    case ClearActive(i) => Some(i)
    case WriterCloses(i) => Some(i)
    case _ => None
  }

  function Step(cap: nat, s: State, a: Action): Option<State>
  {
    if a.Check? || a.Enqueue? then StepSubmit(cap, s, a)
    else match WriterOf(a)
      case Some(i) => if i < |s.writers| then StepWriter(s, i, a) else None
      case None => StepClose(s, a)
  }

  // ---------------------------------------------------------------- sequences of requests

  lemma {:induction false} CountAppend(kind: Kind, id: nat, a: seq<Req>, b: seq<Req>)
    ensures Count(kind, id, a + b) == Count(kind, id, a) + Count(kind, id, b)
    decreases |a|
  {
    if a == [] {
      assert a + b == b;
    } else {
      assert (a + b)[0] == a[0] && (a + b)[1..] == a[1..] + b;
      CountAppend(kind, id, a[1..], b);
    }
  }

  lemma {:induction false} CountSelect(kind: Kind, id: nat, rs: seq<Req>)
    ensures Count(Any, id, Select(kind, rs)) == Count(kind, id, rs)
    decreases |rs|
  {
    if rs != [] {
      CountSelect(kind, id, rs[1..]);
      if Is(kind, rs[0]) {
        assert Select(kind, rs)[1..] == Select(kind, rs[1..]);
      } else {
        assert Select(kind, rs) == Select(kind, rs[1..]);
      }
    }
  }

  lemma {:induction false} DataAppend(a: seq<Req>, b: seq<Req>)
    ensures Data(a + b) == Data(a) + Data(b)
    decreases |a|
  {
    if a == [] {
      assert a + b == b;
    } else {
      assert (a + b)[0] == a[0] && (a + b)[1..] == a[1..] + b;
      DataAppend(a[1..], b);
    }
  }

  lemma DataSnoc(a: seq<Req>, r: Req)
    ensures Data(a + [r]) == Data(a) + r.data
  {
    DataAppend(a, [r]);
    assert Data([r]) == r.data + Data([]);
  }

  lemma CountRemove(kind: Kind, id: nat, rs: seq<Req>, k: nat)
    requires k < |rs|
    ensures Count(kind, id, rs) == Count(kind, id, rs[..k] + rs[k + 1..]) + Count(kind, id, [rs[k]])
  {
    assert rs == rs[..k] + [rs[k]] + rs[k + 1..];
    CountAppend(kind, id, rs[..k] + [rs[k]], rs[k + 1..]);
    CountAppend(kind, id, rs[..k], [rs[k]]);
    CountAppend(kind, id, rs[..k], rs[k + 1..]);
  }

  /** A request of some kind is a request. */
  lemma {:induction false} CountWithin(kind: Kind, id: nat, rs: seq<Req>)
    ensures Count(kind, id, rs) <= Count(Any, id, rs)
    decreases |rs|
  {
    if rs != [] {
      CountWithin(kind, id, rs[1..]);
    }
  }

  lemma {:induction false} CountOfMember(rs: seq<Req>, id: nat)
    ensures Count(Any, id, rs) > 0 <==> exists r <- rs :: r.id == id
    decreases |rs|
  {
    if rs != [] {
      CountOfMember(rs[1..], id);
      assert rs == [rs[0]] + rs[1..];
    }
  }

  // ---------------------------------------------------------------- writers

  function BatchOf(w: Writer): seq<Req>
  {
    match w
    case Writing(batch, _) => batch
    case Finishing(batch, _) => batch
    case _ => []
  }

  function Batches(ws: seq<Writer>): seq<Req>
  {
    if ws == [] then [] else BatchOf(ws[0]) + Batches(ws[1..])
  }

  lemma {:induction false} BatchesAppend(us: seq<Writer>, ws: seq<Writer>)
    ensures Batches(us + ws) == Batches(us) + Batches(ws)
    decreases |us|
  {
    if us == [] {
      assert us + ws == ws;
    } else {
      assert (us + ws)[0] == us[0] && (us + ws)[1..] == us[1..] + ws;
      BatchesAppend(us[1..], ws);
    }
  }

  lemma BatchesFirst(ws: seq<Writer>, rest: seq<Writer>)
    requires ws != [] && rest == ws[1..]
    ensures Batches(ws) == BatchOf(ws[0]) + Batches(rest)
  {
  }

  lemma BatchesSplit(ws: seq<Writer>, i: nat)
    requires i < |ws|
    ensures Batches(ws) == Batches(ws[..i]) + BatchOf(ws[i]) + Batches(ws[i + 1..])
  {
    assert ws == ws[..i] + ws[i..];
    BatchesAppend(ws[..i], ws[i..]);
    BatchesFirst(ws[i..], ws[i + 1..]);
    Associate(Batches(ws[..i]), BatchOf(ws[i]), Batches(ws[i + 1..]));
  }

  lemma BatchesAround(kind: Kind, id: nat, ws: seq<Writer>, i: nat)
    requires i < |ws|
    ensures Count(kind, id, Batches(ws))
         == Count(kind, id, Batches(ws[..i])) + Count(kind, id, BatchOf(ws[i])) + Count(kind, id, Batches(ws[i + 1..]))
  {
    BatchesSplit(ws, i);
    CountAppend(kind, id, Batches(ws[..i]) + BatchOf(ws[i]), Batches(ws[i + 1..]));
    CountAppend(kind, id, Batches(ws[..i]), BatchOf(ws[i]));
  }

  lemma BatchesUpdate(kind: Kind, id: nat, ws: seq<Writer>, i: nat, w: Writer)
    requires i < |ws|
    ensures Count(kind, id, Batches(ws[i := w])) + Count(kind, id, BatchOf(ws[i]))
         == Count(kind, id, Batches(ws)) + Count(kind, id, BatchOf(w))
  {
    BatchesAround(kind, id, ws, i);
    BatchesAround(kind, id, ws[i := w], i);
    assert ws[i := w][..i] == ws[..i] && ws[i := w][i + 1..] == ws[i + 1..];
  }

  lemma BatchesSnoc(ws: seq<Writer>)
    ensures Batches(ws + [Locking]) == Batches(ws)
  {
    BatchesAppend(ws, [Locking]);
    assert Batches([Locking]) == BatchOf(Locking) + Batches([]) == [];
  }

  /** From being started until it clears writeActive. */
  predicate InPhase(w: Writer) { w.Locking? || w.Writing? || w.Finishing? || w.Failing? }

  function RestOf(w: Writer): seq<byte> { if w.Writing? then w.rest else [] }

  // ---------------------------------------------------------------- invariants

  /** writeActive holds exactly while one runWriter is in its phase, and never two are. */
  ghost predicate OneWriter(s: State)
  {
    && (forall i, j :: 0 <= i < |s.writers| && 0 <= j < |s.writers| && InPhase(s.writers[i]) && InPhase(s.writers[j]) ==> i == j)
    && (s.g.active <==> exists i :: 0 <= i < |s.writers| && InPhase(s.writers[i]))
  }

  /** A write has failed or the socket is closed once any of these is seen. */
  ghost predicate DeathKnown(s: State)
  {
    && (forall w <- s.writers :: (w.Finishing? && w.err) || w.Failing? || w.Leaving? ==> s.dead)
    && (s.closer.SocketClosed? || s.closer.Releasing? || s.closer.Closed? ==> s.dead)
    && (s.dead ==> s.closed || exists w <- s.writers :: (w.Finishing? && w.err) || w.Failing? || w.Leaving?)
    && (s.closed <==> !s.closer.NotClosing?)
  }

  /** No lost wakeup: queued requests have a writer unless the connection is dead. */
  ghost predicate Awake(s: State) { s.g.pending != [] ==> s.g.active || s.dead }

  /** What is on the wire, in the writer's hands and queued is what was accepted, in lock order. */
  ghost predicate WireOrder(s: State)
  {
    && s.wire <= Data(s.accepted)
    && (!s.dead ==>
          && (forall w <- s.writers :: InPhase(w) ==> Data(s.accepted) == s.wire + RestOf(w) + Data(s.g.pending))
          && (!s.g.active ==> Data(s.accepted) == s.wire && s.g.pending == []))
  }

  function DrainedBy(c: Closer): seq<Req> { if c.Releasing? then c.drained else [] }

  /** How many times the id sits in the queue's own places. */
  function Held(s: State, id: nat): nat
  {
    Count(Any, id, s.g.pending) + Count(Any, id, Batches(s.writers)) + Count(Any, id, DrainedBy(s.closer))
  }

  /** Conservation: every request that arrived is in exactly one place. */
  ghost predicate Conserved(s: State)
  {
    forall id: nat :: Count(Any, id, s.arrived)
                   == Count(Any, id, s.checked) + Count(Any, id, s.refused) + Held(s, id) + Count(Any, id, s.completed)
  }

  ghost predicate Accounted(s: State)
  {
    forall id: nat ::
      && Count(Any, id, s.arrived) <= 1
      && Count(Any, id, s.signals) == Count(Waiter, id, s.refused) + Count(Waiter, id, s.completed)
      && Count(Any, id, s.returned) == Count(Buffer, id, s.refused) + Count(Buffer, id, s.completed)
  }

  /** After the drain, whatever is queued had passed the closed check before the close. */
  ghost predicate LateOnlyRaced(s: State)
  {
    && (s.closed ==> forall r <- s.checked :: r in s.checkedAtClose)
    && (s.closer.Releasing? || s.closer.Closed? ==> forall r <- s.g.pending :: r in s.checkedAtClose)
  }

  /** Requests appended after the drain behind a running writer; whatever is queued after the drain is
      one of them, unless the writer is about to take it. */
  ghost predicate LateBehind(s: State)
  {
    && (s.late != [] ==> Drained(s.closer))
    && (forall r <- s.late :: r in s.checkedAtClose)
    && (Drained(s.closer) ==> (exists w <- s.writers :: w.Locking?) || forall r <- s.g.pending :: r in s.late)
  }

  ghost predicate Inv(cap: nat, s: State)
  {
    && Counted(s.g, Size, cap)
    && OneWriter(s) && DeathKnown(s) && Awake(s) && WireOrder(s)
    && Conserved(s) && Accounted(s) && LateOnlyRaced(s) && LateBehind(s)
  }
}

/** The ingress twin of the request left in the write queue: from every state in which a payload can still
    be left with its buffer, a run leaves it; and such a state is reachable. */
module IngressLeft {
  import opened Wrappers
  import opened Bytes
  import opened BatchQueue
  import opened Runs
  import opened StreamMachine
  import opened StreamControl
  import opened Credit
  import opened IngressRace
  import Delivery
  import Ownership

  /** The running writer will not come back to the queue: the stream is closed, so it gives up after this
      batch, or its write may fail, or has failed. */
  predicate MayLeave(w: Writer) { w.Taken? || (w.Writing? && w.rest != []) || (w.Releasing? && w.leave) || w.Clearing? }

  ghost predicate Known(c: Config, s: State) { Ctl(c, s) && Raced(s) && Credited(c, s) }

  lemma ReachedKnown(c: Config, s: State)
    requires c.L > 0 && Reaches(Steps(c), Init(c), s)
    ensures Known(c, s)
  {
    var trace: seq<Action> :| Exec(Steps(c), Init(c), trace) == Some(s);
    EveryRunIsRaced(c, trace);
    EveryRunIsCredited(c, trace);
  }

  /** A closed stream with the packet appended after the drain. */
  ghost predicate Kept(s: State, left: Job)
  {
    !s.flags.isOpen && s.race.late == [left] && s.stream.q.pending == [left] && PastDrain(s.closer)
  }

  /** One more step that leaves the queue alone. */
  lemma Move(c: Config, s0: State, s: State, a: Action, left: Job) returns (t: State)
    requires c.L > 0 && Reaches(Steps(c), s0, s) && Known(c, s) && Kept(s, left) && Step(c, s, a).Some?
    requires || (a.ReaderSteps? && (s.reader.Got? || s.reader.Charging? || s.reader.Returning?))
             || (a.WriterSteps? && !s.writer.Locking?) || a.WriterFails? || a.WriterLeaves?
             || (a.CloserSteps? && s.closer.Draining?) || (a.ConnectorSteps? && s.connector.Activated?)
    ensures Step(c, s, a) == Some(t) && Reaches(Steps(c), s0, t) && Known(c, t) && Kept(t, left) && t.h.issued == s.h.issued
  {
    t := Step(c, s, a).value;
    ReachesStep(Steps(c), s0, s, a, t);
    StepKeepsCtl(c, s, a, t);
    StepKeepsRaced(c, s, a, t);
    StepKeepsCredited(c, s, a, t);
    MoveKeeps(c, s, a, left, t);
  }

  lemma MoveKeeps(c: Config, s: State, a: Action, left: Job, t: State)
    requires Kept(s, left) && Step(c, s, a) == Some(t)
    requires || (a.ReaderSteps? && (s.reader.Got? || s.reader.Charging? || s.reader.Returning?))
             || (a.WriterSteps? && !s.writer.Locking?) || a.WriterFails? || a.WriterLeaves?
             || (a.CloserSteps? && s.closer.Draining?) || (a.ConnectorSteps? && s.connector.Activated?)
    ensures Kept(t, left) && t.h.issued == s.h.issued
  {
  }

  /** From every reachable state in which a packet appended after the drain stands behind such a writer, a
      run ends at rest with the packet still queued. */
  lemma LateIsLeft(c: Config, s: State) returns (t: State)
    requires c.L > 0 && Reaches(Steps(c), Init(c), s) && MayLeave(s.writer)
    requires s.race.late != [] && s.stream.q.pending != []
    ensures Reaches(Steps(c), Init(c), t) && AtRest(t)
    ensures t.stream.q.pending == s.stream.q.pending == s.race.late && t.h.issued == s.h.issued
  {
    ReachedKnown(c, s);
    var left := s.race.late[0];
    assert Kept(s, left);
    t := ReaderFinishes(c, Init(c), s, left);
    t := WriterGivesUp(c, Init(c), t, left);
    t := WritersLeave(c, Init(c), t, left);
    t := OthersFinish(c, Init(c), t, left);
  }

  lemma OthersFinish(c: Config, s0: State, s: State, left: Job) returns (t: State)
    requires c.L > 0 && Reaches(Steps(c), s0, s) && Known(c, s) && Kept(s, left)
    requires s.reader.Idle? && s.writer.NoWriter? && s.race.leaving == 0
    ensures Reaches(Steps(c), s0, t) && Kept(t, left) && t.h.issued == s.h.issued && AtRest(t)
  {
    t := s;
    if t.closer.Draining? {
      t := Move(c, s0, t, CloserSteps, left);
    }
    if t.connector.Activated? {
      t := Move(c, s0, t, ConnectorSteps, left);
    }
  }

  lemma ReaderFinishes(c: Config, s0: State, s: State, left: Job) returns (t: State)
    requires c.L > 0 && Reaches(Steps(c), s0, s) && Known(c, s) && Kept(s, left)
    ensures Reaches(Steps(c), s0, t) && Known(c, t) && Kept(t, left) && t.h.issued == s.h.issued
    ensures t.reader.Idle? && t.writer == s.writer
  {
    t := s;
    if t.reader.Got? || t.reader.Charging? {
      t := Move(c, s0, t, ReaderSteps, left);
    }
    if t.reader.Returning? {
      t := Move(c, s0, t, ReaderSteps, left);
    }
  }

  lemma WriterGivesUp(c: Config, s0: State, s: State, left: Job) returns (t: State)
    requires c.L > 0 && Reaches(Steps(c), s0, s) && Known(c, s) && Kept(s, left) && s.reader.Idle? && MayLeave(s.writer)
    ensures Reaches(Steps(c), s0, t) && Known(c, t) && Kept(t, left) && t.h.issued == s.h.issued
    ensures t.reader.Idle? && t.writer.NoWriter?
  {
    t := s;
    if t.writer.Taken? {
      t := Move(c, s0, t, WriterSteps, left);
    } else if t.writer.Writing? {
      t := Move(c, s0, t, WriterFails(0), left);
    }
    if t.writer.Releasing? {
      t := Move(c, s0, t, WriterSteps, left);
    }
    t := Move(c, s0, t, WriterSteps, left);
  }

  lemma {:induction false} WritersLeave(c: Config, s0: State, s: State, left: Job) returns (t: State)
    requires c.L > 0 && Reaches(Steps(c), s0, s) && Known(c, s) && Kept(s, left) && s.reader.Idle? && s.writer.NoWriter?
    ensures Reaches(Steps(c), s0, t) && Known(c, t) && Kept(t, left) && t.h.issued == s.h.issued
    ensures t.reader.Idle? && t.writer.NoWriter? && t.race.leaving == 0
    decreases s.race.leaving
  {
    if s.race.leaving == 0 {
      return s;
    }
    t := Move(c, s0, s, WriterLeaves, left);
    t := WritersLeave(c, s0, t, left);
  }

  // ---------------------------------------------------------------- reaching such a state

  /** A TCP stream past its activation, open. */
  ghost predicate Serving(c: Config, s: State)
  {
    && c.tcp && s.flags == Flags(true, true, true, true, true, true, true)
    && s.connector.Reading? && s.closer.NotClosing? && s.client.up == [] && s.h.granted
  }

  lemma BecomesServing(c: Config) returns (s: State)
    requires c.tcp
    ensures Reaches(Steps(c), Init(c), s) && Serving(c, s) && s.reader.Idle? && s.writer.NoWriter?
    ensures s.stream.q == Guarded([], 0, false) && s.client == Client(c.L, [], []) && s.h.issued == 0 && s.race.late == []
    ensures s.h.parked == s.h.lost == []
  {
    s := Delivery.SnapshotTaken(c);
    var trace: seq<Action> :| Exec(Steps(c), Init(c), trace) == Some(s);
    EveryRunIsRaced(c, trace);
    s := Go(Steps(c), Init(c), s, ConnectorSteps);
    s := Go(Steps(c), Init(c), s, ConnectorSteps);
    s := Go(Steps(c), Init(c), s, ConnectorSteps);
  }

  /** What stays as it was while a packet travels to the lock. */
  ghost predicate SameBut(s: State, t: State)
  {
    && t.flags == s.flags && t.connector == s.connector && t.closer == s.closer && t.writer == s.writer
    && t.stream == s.stream && t.race.late == s.race.late && t.client.down == s.client.down && t.client.up == []
    && t.h.parked == s.h.parked && t.h.lost == s.h.lost && t.h.granted == s.h.granted
  }

  lemma PacketSeen(c: Config, x: seq<byte>, s: State) returns (t: State)
    requires Reaches(Steps(c), Init(c), s) && Serving(c, s) && s.reader.Idle? && (c.obedient ==> s.client.credit > 0)
    ensures Reaches(Steps(c), Init(c), t) && SameBut(s, t)
    ensures t.reader == SawReady(Job(x, Some(s.h.issued))) && t.h.issued == s.h.issued + 1
  {
    t := Go(Steps(c), Init(c), s, ClientSends(x));
    t := Go(Steps(c), Init(c), t, Arrive(true));
    t := Go(Steps(c), Init(c), t, ReaderSteps);
    t := Go(Steps(c), Init(c), t, ReaderSteps);
  }

  lemma PacketAtLock(c: Config, p: Job, s: State) returns (t: State)
    requires Reaches(Steps(c), Init(c), s) && Serving(c, s) && s.reader == SawReady(p)
    ensures Reaches(Steps(c), Init(c), t) && SameBut(s, t)
    ensures t.reader == AtQueue(p) && t.h.issued == s.h.issued
  {
    t := Go(Steps(c), Init(c), s, ReaderSteps);
    t := Go(Steps(c), Init(c), t, ReaderSteps);
    t := Go(Steps(c), Init(c), t, ReaderSteps);
    assert t == s.(reader := Checks(p, 2));
    t := Go(Steps(c), Init(c), t, ReaderSteps);
    t := Go(Steps(c), Init(c), t, ReaderSteps);
  }

  /** The first packet goes into the queue and the writer it starts takes it. */
  lemma FirstPacketTaken(c: Config, p: Job, s: State) returns (t: State)
    requires Reaches(Steps(c), Init(c), s) && Serving(c, s) && s.reader == AtQueue(p) && s.writer.NoWriter?
    requires |p.payload| <= c.cap && s.stream.q == Guarded([], 0, false) && s.race.late == []
    ensures Reaches(Steps(c), Init(c), t) && Serving(c, t) && t.reader == Charging(p, true) && t.writer == Taken([p])
    ensures t.stream.q.pending == [] && t.stream.q.active && t.race.late == [] && t.h.issued == s.h.issued
    ensures t.h.parked == s.h.parked && t.h.lost == s.h.lost
  {
    t := Go(Steps(c), Init(c), s, ReaderSteps);
    assert Offer(s.stream.q, Size, c.cap, p) == (Guarded([] + [p], |p.payload|, true), QueuedAndStart);
    assert t.writer == Locking && t.stream.q.pending == [p] && t.stream.q.active;
    assert t.reader == Charging(p, true) && Serving(c, t);
    t := Go(Steps(c), Init(c), t, WriterSteps);
  }

  lemma FirstPacketCharged(c: Config, p: Job, s: State) returns (t: State)
    requires c.L > 0 && Reaches(Steps(c), Init(c), s) && Serving(c, s) && s.reader == Charging(p, true)
    ensures Reaches(Steps(c), Init(c), t) && Serving(c, t) && t.reader.Idle?
    ensures t.stream.q == s.stream.q && t.writer == s.writer && t.race.late == s.race.late && t.h.issued == s.h.issued
    ensures t.h.parked == s.h.parked && t.h.lost == s.h.lost
  {
    ReachedKnown(c, s);
    t := Go(Steps(c), Init(c), s, ReaderSteps);
    t := Go(Steps(c), Init(c), t, ReaderSteps);
  }

  /** With nothing parked the client has credit, or a CONTINUE to take. */
  lemma MaySendAgain(c: Config, s: State) returns (t: State)
    requires c.L > 0 && Reaches(Steps(c), Init(c), s) && Serving(c, s) && s.reader.Idle?
    requires s.h.parked == s.h.lost == []
    ensures Reaches(Steps(c), Init(c), t) && t == s.(client := t.client) && t.client.up == []
    ensures c.obedient ==> t.client.credit > 0
  {
    ReachedKnown(c, s);
    t := s;
    if c.obedient && s.client.down != [] {
      t := Go(Steps(c), Init(c), s, ClientReceives);
    }
  }

  /** Close wins while the second packet stands before the lock, and drains. */
  lemma CloseDrains(c: Config, p: Job, s: State) returns (t: State)
    requires Reaches(Steps(c), Init(c), s) && Serving(c, s) && s.reader == AtQueue(p)
    ensures Reaches(Steps(c), Init(c), t) && t.closer.Draining? && t.reader == AtQueue(p) && t.writer == s.writer
    ensures t.stream.q == Guarded([], 0, s.stream.q.active) && t.race.late == s.race.late && t.h.issued == s.h.issued
  {
    t := Go(Steps(c), Init(c), s, CloseCalled);
    t := Go(Steps(c), Init(c), t, CloserSteps);
    t := Go(Steps(c), Init(c), t, CloserSteps);
    assert t.closer == SocketClosed && t.flags.ingressActive;
    t := Go(Steps(c), Init(c), t, CloserSteps);
    t := Go(Steps(c), Init(c), t, CloserSteps);
    t := Go(Steps(c), Init(c), t, CloserSteps);
  }

  lemma AppendedLate(c: Config, p: Job, s: State) returns (t: State)
    requires Reaches(Steps(c), Init(c), s) && s.closer.Draining? && s.reader == AtQueue(p)
    requires s.stream.q == Guarded([], 0, true) && s.race.late == [] && |p.payload| <= c.cap
    ensures Reaches(Steps(c), Init(c), t) && t.writer == s.writer && t.h.issued == s.h.issued
    ensures t.race.late == t.stream.q.pending == [p]
  {
    t := Go(Steps(c), Init(c), s, ReaderSteps);
  }

  /** Two packets: the writer holds the first, the second stands before the lock; close wins and drains;
      the second is appended behind the writer.  At rest it is still queued, so its buffer is never
      released. */
  lemma SomePayloadIsLeft(c: Config, x1: seq<byte>, x2: seq<byte>) returns (t: State)
    requires c.L > 0 && c.tcp && |x1| <= c.cap && |x2| <= c.cap
    ensures Reaches(Steps(c), Init(c), t) && AtRest(t)
    ensures t.stream.q.pending == [Job(x2, Some(1))] && Ownership.Times(1, t.h.released) == 0
  {
    var p1, p2 := Job(x1, Some(0)), Job(x2, Some(1));
    var s := BecomesServing(c);
    assert c.obedient ==> s.client.credit > 0;
    s := PacketSeen(c, x1, s);
    s := PacketAtLock(c, p1, s);
    s := FirstPacketTaken(c, p1, s);
    s := FirstPacketCharged(c, p1, s);
    s := MaySendAgain(c, s);
    s := PacketSeen(c, x2, s);
    s := PacketAtLock(c, p2, s);
    s := CloseDrains(c, p2, s);
    s := AppendedLate(c, p2, s);
    t := LateIsLeft(c, s);
    var trace: seq<Action> :| Exec(Steps(c), Init(c), trace) == Some(t);
    UnreleasedIffLeft(c, trace, t, 1);
  }
}

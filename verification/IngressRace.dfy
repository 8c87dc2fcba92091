/** Payloads left in a stream's ingress queue, and their buffers with them: only a packet that stood
    before the queue lock when close won and was appended after the drain behind a running writer. */
module IngressRace {
  import opened Wrappers
  import opened Runs
  import opened StreamMachine
  import opened StreamControl
  import opened Ownership

  /** Past its first load of ingressActive, the reader is on its way into the queue. */
  predicate Queueing(r: Reader) { r.AtQueue? || (r.Checks? && r.n > 0) }

  /** Until close clears it, ingressActive stands for whatever is queued or on its way there. */
  ghost predicate Flagged(s: State)
  {
    && (s.reader.Checks? ==> s.reader.n <= 3)
    && (!PastDrain(s.closer) && !s.closer.Deactivated? && (s.stream.q.pending != [] || Queueing(s.reader)) ==> s.flags.ingressActive)
    && (Queueing(s.reader) || s.race.late != [] ==> s.connector.Activated? || s.connector.Reading?)
  }

  /** At most one packet is late, the one that stood before the lock when close won; after the drain
      nothing else is queued, unless a writer is about to take it. */
  ghost predicate OneLate(s: State)
  {
    && (!PastDrain(s.closer) ==> s.race.late == [])
    && (s.reader.AtQueue? && !s.flags.isOpen ==> s.race.atClose == Some(s.reader.p) && s.race.late == [])
    && (s.race.late == [] || (|s.race.late| == 1 && s.race.atClose == Some(s.race.late[0])))
    && (PastDrain(s.closer) ==> s.stream.q.pending == [] || s.stream.q.pending == s.race.late || s.writer.Locking?)
    && (s.race.late != [] ==> s.reader.Idle? || s.reader.Got? || s.reader.Charging? || s.reader.Returning?)
  }

  /** Whoever saw the write fail still owes a close. */
  ghost predicate DeadOwed(s: State)
  {
    s.flags.isOpen && s.stream.dead ==>
      || s.reader.Broken? || s.connector.Failing? || s.race.leaving > 0
      || (s.writer.Releasing? && s.writer.leave) || s.writer.Clearing?
  }

  ghost predicate Raced(s: State) { Flagged(s) && OneLate(s) && DeadOwed(s) }

  lemma ReaderKeepsFlagged(c: Config, s: State, a: Action, t: State)
    requires Flagged(s) && OneLate(s) && Phases(c, s) && StepReader(c, s, a) == Some(t)
    ensures Flagged(t)
  {
    ReaderFrame(c, s, a, t);
  }

  lemma ReaderKeepsOneLate(c: Config, s: State, a: Action, t: State)
    requires Flagged(s) && OneLate(s) && Phases(c, s) && WriterPhases(c, s) && StepReader(c, s, a) == Some(t)
    ensures OneLate(t)
  {
    ReaderFrame(c, s, a, t);
  }

  lemma ReaderKeepsDeadOwed(c: Config, s: State, a: Action, t: State)
    requires DeadOwed(s) && WriterPhases(c, s) && StepReader(c, s, a) == Some(t)
    ensures DeadOwed(t)
  {
    ReaderFrame(c, s, a, t);
  }

  lemma ConnectorKeepsRaced(c: Config, s: State, a: Action, t: State)
    requires Raced(s) && Phases(c, s) && StepConnector(c, s, a) == Some(t)
    ensures Raced(t)
  {
    ConnectorFrame(c, s, a, t);
    ConnectorStreamFrame(c, s, a, t);
    ConnectorRaceFrame(c, s, a, t);
  }

  lemma ConnectorRaceFrame(c: Config, s: State, a: Action, t: State)
    requires StepConnector(c, s, a) == Some(t)
    ensures t.race == s.race && (s.flags.ingressActive ==> t.flags.ingressActive)
    ensures s.connector.Activated? || s.connector.Reading? ==> t.connector.Activated? || t.connector.Reading?
    ensures s.connector.Failing? && s.flags.isOpen ==> t.connector.Failing?
    ensures t.stream.dead && !s.stream.dead ==> t.connector.Failing?
  {
  }

  lemma WriterKeepsRaced(c: Config, s: State, a: Action, t: State)
    requires Raced(s) && WriterPhases(c, s) && StepWriter(s, a) == Some(t)
    ensures Raced(t)
  {
  }

  lemma CloserKeepsRaced(c: Config, s: State, a: Action, t: State)
    requires Raced(s) && Phases(c, s) && StepCloser(s, a) == Some(t)
    ensures Raced(t)
  {
    CloserFrame(s, a, t);
  }

  lemma StepKeepsRaced(c: Config, s: State, a: Action, t: State)
    requires Raced(s) && Ctl(c, s) && Step(c, s, a) == Some(t)
    ensures Raced(t)
  {
    match ThreadOf(a)
    case ByClient =>
    case ByReader =>
      ReaderKeepsFlagged(c, s, a, t);
      ReaderKeepsOneLate(c, s, a, t);
      ReaderKeepsDeadOwed(c, s, a, t);
    case ByConnector => ConnectorKeepsRaced(c, s, a, t);
    case ByWriter => WriterKeepsRaced(c, s, a, t);
    case ByCloser => CloserKeepsRaced(c, s, a, t);
  }

  lemma EveryRunIsRaced(c: Config, trace: seq<Action>)
    ensures Exec(Steps(c), Init(c), trace).Some?
        ==> var t := Exec(Steps(c), Init(c), trace).value; Ctl(c, t) && Raced(t)
  {
    var inv := (s: State) => Ctl(c, s) && Raced(s);
    forall s: State, a: Action | inv(s) && Steps(c)(s, a).Some?
      ensures inv(Steps(c)(s, a).value)
    {
      StepKeepsCtl(c, s, a, Step(c, s, a).value);
      StepKeepsRaced(c, s, a, Step(c, s, a).value);
    }
    Invariance(Steps(c), inv, Init(c), trace);
  }

  /** Between clearing the flag and the end of its drain, close keeps the ingress path shut. */
  ghost predicate Shut(s: State)
  {
    && (s.closer.SawActive? || s.closer.Deactivated? || s.closer.Draining? ==> s.connector.Activated? || s.connector.Reading?)
    && (s.closer.Deactivated? || s.closer.Draining? ==> !s.flags.ingressActive)
  }

  lemma StepKeepsShut(c: Config, s: State, a: Action, t: State)
    requires Shut(s) && Phases(c, s) && Step(c, s, a) == Some(t)
    ensures Shut(t)
  {
    match ThreadOf(a)
    case ByReader => ReaderFrame(c, s, a, t);
    case ByConnector =>
      ConnectorFrame(c, s, a, t);
      ConnectorRaceFrame(c, s, a, t);
      if s.connector.Activated? || s.connector.Reading? {
        ConnectorShutFrame(c, s, a, t);
      }
    case _ =>
  }

  lemma ConnectorShutFrame(c: Config, s: State, a: Action, t: State)
    requires StepConnector(c, s, a) == Some(t) && (s.connector.Activated? || s.connector.Reading?)
    ensures t.flags.ingressActive == s.flags.ingressActive
  {
  }

  lemma DrainedWhileShut(c: Config, trace: seq<Action>, t: State)
    requires Exec(Steps(c), Init(c), trace) == Some(t) && (t.closer.Deactivated? || t.closer.Draining?)
    ensures !t.flags.ingressActive
  {
    var inv := (s: State) => Ctl(c, s) && Shut(s);
    forall s: State, a: Action | inv(s) && Steps(c)(s, a).Some?
      ensures inv(Steps(c)(s, a).value)
    {
      StepKeepsCtl(c, s, a, Step(c, s, a).value);
      StepKeepsShut(c, s, a, Step(c, s, a).value);
    }
    Invariance(Steps(c), inv, Init(c), trace);
  }

  // ---------------------------------------------------------------- at rest

  /** The reader between packets, no writer, close finished or never called, nobody owing one. */
  ghost predicate AtRest(s: State)
  {
    && s.reader.Idle? && s.writer.NoWriter? && s.race.leaving == 0
    && (s.closer.NotClosing? || s.closer.Closed?)
    && (s.connector.Reading? || s.connector.Exited?)
  }

  /** At rest a buffer has been released exactly once, or it is still queued; and what is queued is the
      one packet that stood before the lock when close won and was appended after the drain behind a
      running writer. */
  lemma UnreleasedIffLeft(c: Config, trace: seq<Action>, t: State, l: nat)
    requires Exec(Steps(c), Init(c), trace) == Some(t) && AtRest(t) && l < t.h.issued
    ensures Times(l, t.h.released) <= 1
    ensures Times(l, t.h.released) == 0 <==> exists j <- t.stream.q.pending :: j.lease == Some(l)
    ensures t.stream.q.pending != [] ==>
      !t.flags.isOpen && exists j: Job :: t.stream.q.pending == t.race.late == [j] && t.race.atClose == Some(j)
  {
    EveryRunOwns(c, trace);
    EveryRunIsRaced(c, trace);
    LeaseCounted(l, t.stream.q.pending);
    if t.stream.q.pending != [] {
      assert t.stream.q.pending == t.race.late == [t.race.late[0]];
    }
  }

  lemma {:induction false} LeaseCounted(l: nat, jobs: seq<Job>)
    ensures LeaseCount(l, jobs) > 0 <==> exists j <- jobs :: j.lease == Some(l)
    decreases |jobs|
  {
    if jobs != [] {
      LeaseCounted(l, jobs[1..]);
      assert jobs == [jobs[0]] + jobs[1..];
    }
  }

  /** What is left stays left: no thread of a closed stream ever takes it again. */
  ghost predicate Stuck(s: State, left: seq<Job>)
  {
    && !s.flags.isOpen && s.closer.Closed? && s.writer.NoWriter? && s.stream.q.pending == left
    && !s.reader.AtQueue? && (s.reader.Checks? ==> s.reader.n <= 3)
  }

  lemma StepStaysStuck(c: Config, s: State, left: seq<Job>, a: Action, t: State)
    requires Stuck(s, left) && Step(c, s, a) == Some(t)
    ensures Stuck(t, left)
  {
    match ThreadOf(a)
    case ByReader => ReaderFrame(c, s, a, t);
    case ByConnector =>
      ConnectorFrame(c, s, a, t);
      ConnectorStreamFrame(c, s, a, t);
    case _ =>
  }

  /** From such a rest no run ever releases the buffer. */
  lemma LeftForGood(c: Config, trace: seq<Action>, s: State, l: nat, more: seq<Action>, t: State)
    requires Exec(Steps(c), Init(c), trace) == Some(s) && AtRest(s) && l < s.h.issued
    requires Times(l, s.h.released) == 0 && Exec(Steps(c), s, more) == Some(t)
    ensures t.stream.q.pending == s.stream.q.pending && t.h.issued >= s.h.issued && Times(l, t.h.released) == 0
  {
    UnreleasedIffLeft(c, trace, s, l);
    EveryRunIsRaced(c, trace);
    var left := s.stream.q.pending;
    var inv := (u: State) => Stuck(u, left) && u.h.issued >= s.h.issued;
    forall u: State, a: Action | inv(u) && Steps(c)(u, a).Some?
      ensures inv(Steps(c)(u, a).value)
    {
      StepStaysStuck(c, u, left, a, Step(c, u, a).value);
      IssuedGrows(c, u, a, Step(c, u, a).value);
    }
    Invariance(Steps(c), inv, s, more);
    ExecConcat(Steps(c), Init(c), trace, more);
    EveryRunOwns(c, trace + more);
    LeaseCounted(l, left);
  }

  lemma IssuedGrows(c: Config, s: State, a: Action, t: State)
    requires Step(c, s, a) == Some(t)
    ensures t.h.issued >= s.h.issued
  {
    match ThreadOf(a)
    case ByConnector => ConnectorFrame(c, s, a, t);
    case ByCloser => CloserFrame(s, a, t);
    case _ =>
  }
}

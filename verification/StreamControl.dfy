/** How the threads of one stream constrain each other: what readiness, the open flag, the ingress
    flag and the snapshot imply about where the others stand. */
module StreamControl {
  import opened Wrappers
  import opened BatchQueue
  import opened StreamMachine

  /** While the stream is open, ready is signalled only after the flush and the activation. */
  ghost predicate Phases(c: Config, s: State)
  {
    && (s.flags.isOpen <==> s.closer.NotClosing?)
    && (s.flags.isOpen && s.flags.ready ==> s.connector.Reading?)
    && (s.flags.isOpen ==> !s.connector.Exited?)
    && (s.flags.ingressActive ==> c.tcp && s.flags.started && (s.connector.Activated? || s.connector.Reading?))
    && (s.flags.isOpen && c.tcp && (s.connector.Activated? || s.connector.Reading?) ==> s.flags.ingressActive)
    && (s.connector.Checking? || s.connector.Dialing? || s.connector.Dialed? || s.connector.Snapping? ==> !s.flags.snapped)
    && (s.connector.Flushing? || s.connector.Flushed? || s.connector.Activated? || s.connector.Reading? ==> s.flags.snapped)
    && (s.connector.Checking? ==> !s.flags.started)
    && (!s.connector.Checking? && !s.connector.Failing? && !s.connector.Exited? ==> s.flags.started)
    && (!s.connector.Checking? && !s.connector.Dialing? && !s.connector.Failing? && !s.connector.Exited? ==> s.flags.haveConn)
  }

  predicate PastReady(r: Reader)
  {
    r.SawReady? || r.Checks? || r.AtQueue? || r.Direct? || r.Broken? || r.Crashed? || r.Charging?
  }

  /** The reader parks only while it has never seen the stream ready. */
  ghost predicate ReaderPhases(c: Config, s: State)
  {
    && (PastReady(s.reader) || s.h.queued != [] ==> s.flags.ready)
    && (s.reader.AtLock? || s.reader.InLock? ==> s.h.queued == [])
    && (s.reader.Direct? || s.reader.Charging? ==> s.h.queued != [])
    && (!s.flags.snapped ==> s.h.lost == [])
    && (s.reader.Checks? || s.reader.AtQueue? || s.reader.Charging? ==> c.tcp && s.flags.started)
    && (s.flags.isOpen && (s.reader.Direct? || s.reader.Broken? || s.reader.Crashed?) ==> !c.tcp)
  }

  /** ingressWriting holds exactly while a writer is between its start and its leaving. */
  ghost predicate WriterPhases(c: Config, s: State)
  {
    && (s.stream.q.active <==> !s.writer.NoWriter?)
    && (!c.tcp || s.h.queued == [] ==> s.stream.q.pending == [] && s.writer.NoWriter?)
    && (s.flags.isOpen ==> !(s.writer.Releasing? && s.writer.leave && !s.stream.dead))
    && (s.flags.isOpen && s.writer.Clearing? ==> s.stream.dead)
    && (s.stream.q.pending != [] && s.flags.isOpen && !s.stream.dead ==> s.stream.q.active)
  }

  /** pendingIngBytes is the summed payload of pendingIngress and within the cap. */
  ghost predicate QueueCounted(c: Config, s: State) { Counted(s.stream.q, Size, c.cap) }

  ghost predicate Ctl(c: Config, s: State) { Phases(c, s) && ReaderPhases(c, s) && WriterPhases(c, s) && QueueCounted(c, s) }

  lemma SectionsKeepQueueCounted(c: Config, s: State, a: Action, t: State)
    requires QueueCounted(c, s)
    requires StepReader(c, s, a) == Some(t) || StepWriter(s, a) == Some(t) || StepCloser(s, a) == Some(t)
    ensures QueueCounted(c, t)
  {
    SectionsKeepCount(s.stream.q, Size, c.cap, if s.reader.AtQueue? then s.reader.p else Job([], None));
  }

  lemma ClientKeepsCtl(c: Config, s: State, a: Action, t: State)
    requires Ctl(c, s) && StepClient(c, s, a) == Some(t)
    ensures Ctl(c, t)
  {
  }

  lemma ReaderFrame(c: Config, s: State, a: Action, t: State)
    requires StepReader(c, s, a) == Some(t)
    ensures t.flags == s.flags && t.connector == s.connector && t.closer == s.closer
  {
  }

  lemma ReaderKeepsPhases(c: Config, s: State, a: Action, t: State)
    requires Phases(c, s) && StepReader(c, s, a) == Some(t)
    ensures Phases(c, t)
  {
    ReaderFrame(c, s, a, t);
  }

  lemma ReaderKeepsReaderPhases(c: Config, s: State, a: Action, t: State)
    requires Phases(c, s) && ReaderPhases(c, s) && StepReader(c, s, a) == Some(t)
    ensures ReaderPhases(c, t)
  {
  }

  lemma ReaderKeepsWriterPhases(c: Config, s: State, a: Action, t: State)
    requires Phases(c, s) && ReaderPhases(c, s) && WriterPhases(c, s) && StepReader(c, s, a) == Some(t)
    ensures WriterPhases(c, t)
  {
  }

  lemma ConnectorFrame(c: Config, s: State, a: Action, t: State)
    requires StepConnector(c, s, a) == Some(t)
    ensures t.reader == s.reader && t.writer == s.writer && t.closer == s.closer
    ensures t.h == s.h.(granted := t.h.granted)
  {
  }

  lemma ConnectorStreamFrame(c: Config, s: State, a: Action, t: State)
    requires StepConnector(c, s, a) == Some(t)
    ensures t.stream.q == s.stream.q && (s.stream.dead ==> t.stream.dead)
    ensures t.flags.isOpen == s.flags.isOpen && t.flags.connOpen == s.flags.connOpen
    ensures (s.flags.ready ==> t.flags.ready) && (s.flags.started ==> t.flags.started) && (s.flags.snapped ==> t.flags.snapped)
  {
    match a
    case ConnectorSteps =>
      match s.connector {
        case Flushing(_, _) =>
        case _ =>
      }
    case _ =>
  }

  lemma ConnectorKeepsPhases(c: Config, s: State, a: Action, t: State)
    requires Phases(c, s) && StepConnector(c, s, a) == Some(t)
    ensures Phases(c, t)
  {
  }

  lemma ConnectorKeepsCtl(c: Config, s: State, a: Action, t: State)
    requires Ctl(c, s) && StepConnector(c, s, a) == Some(t)
    ensures Ctl(c, t)
  {
    ConnectorFrame(c, s, a, t);
    ConnectorStreamFrame(c, s, a, t);
    ConnectorKeepsPhases(c, s, a, t);
  }

  lemma WriterKeepsCtl(c: Config, s: State, a: Action, t: State)
    requires Ctl(c, s) && StepWriter(s, a) == Some(t)
    ensures Ctl(c, t)
  {
    SectionsKeepQueueCounted(c, s, a, t);
  }

  lemma CloserFrame(s: State, a: Action, t: State)
    requires StepCloser(s, a) == Some(t)
    ensures t.client == s.client && t.reader == s.reader && t.connector == s.connector && t.writer == s.writer
    ensures t.stream.sink == s.stream.sink && t.stream.q.active == s.stream.q.active
    ensures t.stream.q.pending == s.stream.q.pending || t.stream.q.pending == []
    ensures t.h == s.h.(released := t.h.released)
    ensures t.flags.snapped == s.flags.snapped && t.flags.started == s.flags.started && (s.flags.ready ==> t.flags.ready)
    ensures t.flags.isOpen ==> s.flags.isOpen
  {
  }

  lemma CloserKeepsPhases(c: Config, s: State, a: Action, t: State)
    requires Phases(c, s) && StepCloser(s, a) == Some(t)
    ensures Phases(c, t)
  {
  }

  /** While the stream stays open, only the connection can have closed. */
  lemma CloserWhileOpen(c: Config, s: State, a: Action, t: State)
    requires Phases(c, s) && StepCloser(s, a) == Some(t) && t.flags.isOpen
    ensures t == s.(flags := s.flags.(connOpen := t.flags.connOpen)) && (t.flags.connOpen ==> s.flags.connOpen)
  {
  }

  lemma CloserKeepsCtl(c: Config, s: State, a: Action, t: State)
    requires Ctl(c, s) && StepCloser(s, a) == Some(t)
    ensures Ctl(c, t)
  {
    CloserFrame(s, a, t);
    CloserKeepsPhases(c, s, a, t);
    SectionsKeepQueueCounted(c, s, a, t);
    if t.flags.isOpen {
      CloserWhileOpen(c, s, a, t);
    }
  }

  lemma StepKeepsCtl(c: Config, s: State, a: Action, t: State)
    requires Ctl(c, s) && Step(c, s, a) == Some(t)
    ensures Ctl(c, t)
  {
    match ThreadOf(a)
    case ByClient => ClientKeepsCtl(c, s, a, t);
    case ByReader =>
      ReaderKeepsPhases(c, s, a, t);
      ReaderKeepsReaderPhases(c, s, a, t);
      ReaderKeepsWriterPhases(c, s, a, t);
      SectionsKeepQueueCounted(c, s, a, t);
    case ByConnector => ConnectorKeepsCtl(c, s, a, t);
    case ByWriter => WriterKeepsCtl(c, s, a, t);
    case ByCloser => CloserKeepsCtl(c, s, a, t);
  }
}

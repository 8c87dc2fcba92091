/** What can still reach the target after close has won: the rest of the one payload each goroutine has in
    its hands, and nothing that is parked, queued or arrives. */
module AfterClose {
  import opened Wrappers
  import opened Runs
  import opened StreamMachine
  import opened StreamControl

  /** Bytes a direct write may still make of the reader's packet. */
  function ReaderHolds(r: Reader): nat
  {
    match r
    case Passed(p) => |p.payload|
    case AtLock(p) => |p.payload|
    case SawReady(p) => |p.payload|
    case Direct(_, rest) => |rest|
    case _ => 0
  }

  function ConnectorHolds(k: Connector): nat { if k.Flushing? then |k.rest| else 0 }

  function WriterHolds(w: Writer): nat { if w.Writing? then |w.rest| else 0 }

  function InHand(s: State): nat { ReaderHolds(s.reader) + ConnectorHolds(s.connector) + WriterHolds(s.writer) }

  lemma ReaderWritesInHand(c: Config, s: State, a: Action, t: State)
    requires !s.flags.isOpen && StepReader(c, s, a) == Some(t) && !a.Arrive?
    ensures |t.stream.sink| + ReaderHolds(t.reader) <= |s.stream.sink| + ReaderHolds(s.reader)
    ensures t.writer == s.writer || t.writer == Locking
  {
  }

  lemma ConnectorWritesInHand(c: Config, s: State, a: Action, t: State)
    requires !s.flags.isOpen && StepConnector(c, s, a) == Some(t)
    ensures |t.stream.sink| + ConnectorHolds(t.connector) <= |s.stream.sink| + ConnectorHolds(s.connector)
  {
  }

  lemma WriterWritesInHand(s: State, a: Action, t: State)
    requires !s.flags.isOpen && StepWriter(s, a) == Some(t)
    ensures |t.stream.sink| + WriterHolds(t.writer) <= |s.stream.sink| + WriterHolds(s.writer)
    ensures t.reader == s.reader && t.connector == s.connector && t.flags == s.flags
  {
  }

  lemma StepWritesInHand(c: Config, s: State, a: Action, t: State)
    requires !s.flags.isOpen && Step(c, s, a) == Some(t)
    ensures !t.flags.isOpen && |t.stream.sink| + InHand(t) <= |s.stream.sink| + InHand(s)
  {
    match ThreadOf(a)
    case ByClient =>
    case ByReader =>
      ReaderFrame(c, s, a, t);
      if !a.Arrive? {
        ReaderWritesInHand(c, s, a, t);
      }
    case ByConnector =>
      ConnectorFrame(c, s, a, t);
      ConnectorStreamFrame(c, s, a, t);
      ConnectorWritesInHand(c, s, a, t);
    case ByWriter => WriterWritesInHand(s, a, t);
    case ByCloser => CloserFrame(s, a, t);
  }

  /** From every state in which close has won, no run brings the target more than what was in hand. */
  lemma NothingNewIsWritten(c: Config, s: State, more: seq<Action>, t: State)
    requires !s.flags.isOpen && Exec(Steps(c), s, more) == Some(t)
    ensures |t.stream.sink| <= |s.stream.sink| + InHand(s)
  {
    var bound := |s.stream.sink| + InHand(s);
    var inv := (u: State) => !u.flags.isOpen && |u.stream.sink| + InHand(u) <= bound;
    forall u: State, a: Action | inv(u) && Steps(c)(u, a).Some?
      ensures inv(Steps(c)(u, a).value)
    {
      StepWritesInHand(c, u, a, Step(c, u, a).value);
    }
    Invariance(Steps(c), inv, s, more);
  }
}

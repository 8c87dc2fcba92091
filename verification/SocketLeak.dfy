/** The target connection after close.  Close looks for it once; a dial that ends later leaves it open, and
    what it sends still goes to the client under the stream's id. */
module SocketLeak {
  import opened Runs
  import opened StreamMachine
  import opened StreamControl
  import opened Wrappers
  import DirectWrite

  ghost predicate SockKnown(s: State)
  {
    && (s.sock.closed || s.sock.dialedLate || s.sock.refused ==> s.flags.haveConn)
    && (s.flags.haveConn ==> !s.connector.Checking? && !s.connector.Dialing?)
    && (s.sock.refused ==> s.sock.closed)
    && (s.sock.dialedLate ==> PastLook(s.closer) && (s.sock.closed ==> s.sock.refused))
    && (s.flags.haveConn && !s.sock.dialedLate && PastLook(s.closer) ==> s.sock.closed)
    && (s.sock.closed ==> PastLook(s.closer) || s.sock.refused)
  }

  lemma ReaderKeepsSock(c: Config, s: State, a: Action, t: State)
    requires SockKnown(s) && StepReader(c, s, a) == Some(t)
    ensures SockKnown(t) && t.sock == s.sock
  {
    ReaderFrame(c, s, a, t);
  }

  lemma ConnectorKeepsSock(c: Config, s: State, a: Action, t: State)
    requires SockKnown(s) && Phases(c, s) && StepConnector(c, s, a) == Some(t)
    ensures SockKnown(t)
  {
    ConnectorFrame(c, s, a, t);
    if !a.DialEnds? && !a.Blocked? {
      ConnectorSockFrame(c, s, a, t);
    }
  }

  lemma ConnectorSockFrame(c: Config, s: State, a: Action, t: State)
    requires StepConnector(c, s, a) == Some(t) && !a.DialEnds? && !a.Blocked?
    ensures t.sock == s.sock && t.flags.haveConn == s.flags.haveConn
    ensures !s.connector.Checking? && !s.connector.Dialing? ==> !t.connector.Checking? && !t.connector.Dialing?
    ensures s.connector.Checking? ==> t.connector.Dialing?
    ensures !s.connector.Dialing?
  {
  }

  lemma WriterKeepsSock(s: State, a: Action, t: State)
    requires SockKnown(s) && StepWriter(s, a) == Some(t)
    ensures SockKnown(t) && t.sock == s.sock
  {
  }

  lemma CloserKeepsSock(c: Config, s: State, a: Action, t: State)
    requires SockKnown(s) && Phases(c, s) && StepCloser(s, a) == Some(t)
    ensures SockKnown(t)
  {
  }

  lemma EveryRunKnowsSock(c: Config, trace: seq<Action>)
    ensures Exec(Steps(c), Init(c), trace).Some?
        ==> var t := Exec(Steps(c), Init(c), trace).value; Ctl(c, t) && SockKnown(t)
  {
    var inv := (s: State) => Ctl(c, s) && SockKnown(s);
    forall s: State, a: Action | inv(s) && Steps(c)(s, a).Some?
      ensures inv(Steps(c)(s, a).value)
    {
      var t := Step(c, s, a).value;
      StepKeepsCtl(c, s, a, t);
      match ThreadOf(a)
      case ByClient =>
      case ByReader => ReaderKeepsSock(c, s, a, t);
      case ByConnector => ConnectorKeepsSock(c, s, a, t);
      case ByWriter => WriterKeepsSock(s, a, t);
      case ByCloser => CloserKeepsSock(c, s, a, t);
    }
    Invariance(Steps(c), inv, Init(c), trace);
  }

  /** Once close has finished, a connection is left open if and only if its dial ended after close had
      looked for it, and the failure signature did not refuse it. */
  lemma LeftOpenIffDialedLate(c: Config, trace: seq<Action>, t: State)
    requires Exec(Steps(c), Init(c), trace) == Some(t) && t.closer.Closed? && t.flags.haveConn
    ensures !t.sock.closed <==> t.sock.dialedLate && !t.sock.refused
  {
    EveryRunKnowsSock(c, trace);
  }

  /** Close finished, a connection open, and the signature check behind it. */
  ghost predicate Leaked(s: State)
  {
    s.closer.Closed? && !s.flags.isOpen && s.flags.haveConn && !s.sock.closed && !s.connector.Dialed?
    && !s.connector.Checking? && !s.connector.Dialing?
  }

  lemma StepStaysLeaked(c: Config, s: State, a: Action, t: State)
    requires Leaked(s) && Step(c, s, a) == Some(t)
    ensures Leaked(t)
  {
    match ThreadOf(a)
    case ByClient =>
    case ByReader =>
      ReaderFrame(c, s, a, t);
      ReaderSockFrame(c, s, a, t);
    case ByConnector => ConnectorFrame(c, s, a, t);
    case _ =>
  }

  lemma ReaderSockFrame(c: Config, s: State, a: Action, t: State)
    requires StepReader(c, s, a) == Some(t)
    ensures t.sock == s.sock
  {
  }

  /** Nothing closes it later. */
  lemma LeakedForGood(c: Config, s: State, more: seq<Action>, t: State)
    requires Leaked(s) && Exec(Steps(c), s, more) == Some(t)
    ensures Leaked(t)
  {
    forall u: State, a: Action | Leaked(u) && Steps(c)(u, a).Some?
      ensures Leaked(Steps(c)(u, a).value)
    {
      StepStaysLeaked(c, u, a, Step(c, u, a).value);
    }
    Invariance(Steps(c), Leaked, s, more);
  }

  /** From every reachable state of an open stream whose dial is under way, a run leaks the connection. */
  lemma DialMayLeak(c: Config, s: State) returns (t: State)
    requires Reaches(Steps(c), Init(c), s) && s.connector.Dialing? && s.flags.isOpen
    ensures Reaches(Steps(c), Init(c), t) && Leaked(t) && t.sock.dialedLate && t.connector.Snapping?
    ensures t.reader == s.reader && t.stream == s.stream
  {
    var trace: seq<Action> :| Exec(Steps(c), Init(c), trace) == Some(s);
    EveryRunKnowsSock(c, trace);
    DirectWrite.EveryRunNoConn(c, trace);
    t := CloseFinishesFirst(c, s);
    t := Go(Steps(c), Init(c), t, DialEnds(true));
    t := Go(Steps(c), Init(c), t, ConnectorSteps);
  }

  lemma CloseFinishesFirst(c: Config, s: State) returns (t: State)
    requires Reaches(Steps(c), Init(c), s) && s.connector.Dialing? && s.flags.isOpen && !s.flags.haveConn
    requires !s.reader.Crashed? && !s.flags.ingressActive && !s.sock.closed && !s.sock.refused
    ensures Reaches(Steps(c), Init(c), t) && t.closer.Closed? && !t.flags.isOpen && !t.flags.haveConn && t.connector.Dialing?
    ensures t.reader == s.reader && t.stream == s.stream && t.sock == s.sock
  {
    t := Go(Steps(c), Init(c), s, CloseCalled);
    t := Go(Steps(c), Init(c), t, CloserSteps);
    t := Go(Steps(c), Init(c), t, CloserSteps);
    t := Go(Steps(c), Init(c), t, CloserSteps);
  }

  /** Such a run from the start: the stream is closed for good and its connection read for ever. */
  lemma SomeConnectionLeaks(c: Config) returns (t: State)
    ensures Reaches(Steps(c), Init(c), t) && Leaked(t) && t.connector.Reading? && !t.stream.dead
  {
    ReachesSelf(Steps(c), Init(c));
    var s := Go(Steps(c), Init(c), Init(c), Starts);
    t := DialMayLeak(c, s);
    t := ReadsForEver(c, t);
  }

  lemma ReadsForEver(c: Config, s: State) returns (t: State)
    requires Reaches(Steps(c), Init(c), s) && Leaked(s) && s.connector.Snapping? && s.reader.Idle?
    requires s.stream.pendingData == [] && !s.stream.dead
    ensures Reaches(Steps(c), Init(c), t) && Leaked(t) && t.connector.Reading? && !t.stream.dead
  {
    t := Go(Steps(c), Init(c), s, ConnectorSteps);
    t := Go(Steps(c), Init(c), t, ConnectorSteps);
    t := Activates(c, t);
  }

  lemma Activates(c: Config, s: State) returns (t: State)
    requires Reaches(Steps(c), Init(c), s) && Leaked(s) && s.connector.Flushed? && s.reader.Idle? && !s.stream.dead
    ensures Reaches(Steps(c), Init(c), t) && Leaked(t) && t.connector.Reading? && !t.stream.dead
  {
    t := Go(Steps(c), Init(c), s, ConnectorSteps);
    t := Go(Steps(c), Init(c), t, ConnectorSteps);
  }
}

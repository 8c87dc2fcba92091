/** A direct write to the target assumes a connection.  It meets none when close won between the packet's
    two loads, of isOpen and of connReadyDone, and no dial had succeeded; the process then dies. */
module DirectWrite {
  import opened Wrappers
  import opened Bytes
  import opened Runs
  import opened StreamMachine
  import opened StreamControl

  /** A packet that found the stream ready without a connection found it so because of close. */
  ghost predicate NoConnByClose(s: State)
  {
    && (s.reader.Crashed? ==> !s.flags.haveConn)
    && (s.reader.Passed? || s.reader.AtLock? || s.reader.SawReady? || s.reader.Direct? || s.reader.Crashed? ==> s.race.openAtPass)
    && ((s.reader.SawReady? || s.reader.Direct? || s.reader.Crashed?) && !s.flags.haveConn ==>
          s.race.readyByClose && !s.flags.isOpen)
  }

  lemma ReaderKeepsNoConn(c: Config, s: State, a: Action, t: State)
    requires NoConnByClose(s) && Phases(c, s) && StepReader(c, s, a) == Some(t)
    ensures NoConnByClose(t)
  {
    ReaderFrame(c, s, a, t);
  }

  lemma OthersKeepNoConn(c: Config, s: State, a: Action, t: State)
    requires NoConnByClose(s) && Step(c, s, a) == Some(t) && !ThreadOf(a).ByReader?
    ensures NoConnByClose(t)
  {
    match ThreadOf(a)
    case ByClient =>
    case ByConnector => ConnectorConnFrame(c, s, a, t);
    case ByWriter => WriterConnFrame(s, a, t);
    case ByCloser => CloserConnFrame(s, a, t);
  }

  ghost predicate ConnFrame(s: State, t: State)
  {
    && t.reader == s.reader && t.race.readyByClose == s.race.readyByClose && t.race.openAtPass == s.race.openAtPass
    && (s.flags.haveConn ==> t.flags.haveConn) && (t.flags.isOpen ==> s.flags.isOpen)
  }

  lemma ConnectorConnFrame(c: Config, s: State, a: Action, t: State)
    requires StepConnector(c, s, a) == Some(t)
    ensures ConnFrame(s, t)
  {
    ConnectorStreamFrame(c, s, a, t);
  }

  lemma WriterConnFrame(s: State, a: Action, t: State)
    requires StepWriter(s, a) == Some(t)
    ensures ConnFrame(s, t)
  {
  }

  lemma CloserConnFrame(s: State, a: Action, t: State)
    requires StepCloser(s, a) == Some(t)
    ensures ConnFrame(s, t)
  {
  }

  lemma EveryRunNoConn(c: Config, trace: seq<Action>)
    ensures Exec(Steps(c), Init(c), trace).Some?
        ==> var t := Exec(Steps(c), Init(c), trace).value; Ctl(c, t) && NoConnByClose(t)
  {
    var inv := (s: State) => Ctl(c, s) && NoConnByClose(s);
    forall s: State, a: Action | inv(s) && Steps(c)(s, a).Some?
      ensures inv(Steps(c)(s, a).value)
    {
      var t := Step(c, s, a).value;
      StepKeepsCtl(c, s, a, t);
      if ThreadOf(a).ByReader? {
        ReaderKeepsNoConn(c, s, a, t);
      } else {
        OthersKeepNoConn(c, s, a, t);
      }
    }
    Invariance(Steps(c), inv, Init(c), trace);
  }

  /** In every run that crashes, or is about to, there is no connection, the packet's load of isOpen found
      the stream open before close won, and its load of connReadyDone found it ready after that. */
  lemma NilWriteNeedsClose(c: Config, trace: seq<Action>, t: State)
    requires Exec(Steps(c), Init(c), trace) == Some(t)
    requires t.reader.Crashed? || (t.reader.Direct? && !t.flags.haveConn)
    ensures !t.flags.haveConn && !t.flags.isOpen && t.race.openAtPass && t.race.readyByClose
  {
    EveryRunNoConn(c, trace);
  }

  /** And whenever it can happen it may: from every reachable state with a nonempty packet between its two
      loads on an open stream without a connection, a run crashes, and no thread moves after that. */
  lemma NilWriteFollows(c: Config, s: State) returns (t: State)
    requires Reaches(Steps(c), Init(c), s) && s.reader.Passed? && s.reader.p.payload != []
    requires s.flags.isOpen && !s.flags.haveConn
    ensures Reaches(Steps(c), Init(c), t) && t.reader == Crashed(s.reader.p)
    ensures forall a: Action :: Step(c, t, a) == None
  {
    var trace: seq<Action> :| Exec(Steps(c), Init(c), trace) == Some(s);
    EveryRunNoConn(c, trace);
    assert !s.flags.ingressActive;
    t := ClosedBetween(c, s);
    t := Go(Steps(c), Init(c), t, ReaderSteps);
    t := Go(Steps(c), Init(c), t, ReaderSteps);
  }

  lemma ClosedBetween(c: Config, s: State) returns (t: State)
    requires Reaches(Steps(c), Init(c), s) && s.reader.Passed? && s.flags.isOpen
    ensures Reaches(Steps(c), Init(c), t) && t.reader == SawReady(s.reader.p)
    ensures t.flags.haveConn == s.flags.haveConn && t.flags.ingressActive == s.flags.ingressActive
  {
    t := Go(Steps(c), Init(c), s, CloseCalled);
    t := Go(Steps(c), Init(c), t, CloserSteps);
    t := Go(Steps(c), Init(c), t, ReaderSteps);
  }

  /** Such a run from the start, for every configuration in which a first packet may be sent. */
  lemma SomeRunCrashes(c: Config, x: seq<byte>) returns (t: State)
    requires x != [] && (c.obedient ==> c.L > 0 && !c.confirm)
    ensures Reaches(Steps(c), Init(c), t) && t.reader == Crashed(Job(x, None))
  {
    ReachesSelf(Steps(c), Init(c));
    var s := Go(Steps(c), Init(c), Init(c), ClientSends(x));
    s := Go(Steps(c), Init(c), s, Arrive(false));
    s := Go(Steps(c), Init(c), s, ReaderSteps);
    t := NilWriteFollows(c, s);
  }
}

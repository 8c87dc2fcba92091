/** The packet credit of a TCP stream: what the server's counter says about the client's credit and
    the packets under way, and when the two parties wait for each other for ever. */
module Credit {
  import opened Wrappers
  import opened Arithmetic
  import opened Runs
  import opened StreamMachine
  import opened StreamControl
  import Delivery

  /** Packets that arrived and are neither parked nor charged yet. */
  function Uncharged(r: Reader): nat { if r.Idle? || r.Returning? then 0 else 1 }

  /** Packets parked in pendingData over the stream's life; they are never charged. */
  function ParkedCount(s: State): nat { |s.h.parked| + |s.h.lost| }

  function Remaining(c: Config, s: State): nat { if s.flags.started then s.stream.bufferRemaining else c.L }

  ghost predicate Counter(c: Config, s: State)
  {
    && 1 <= Remaining(c, s) <= c.L
    && s.h.charged == s.h.continues * c.L + (c.L - Remaining(c, s))
    && (!s.flags.ready ==> s.h.charged == 0)
    && (s.h.charged > 0 ==> s.h.queued != [])
  }

  /** With nothing granted yet, nothing moves; with a grant under way, the channel up is empty, the
      client has no credit and the counter is full; otherwise the counter is the client's credit
      plus what is under way plus what was parked. */
  ghost predicate Balance(c: Config, s: State)
  {
    if !s.h.granted || s.client.down != [] then
      && s.client.credit == 0 && s.client.up == [] && Uncharged(s.reader) == 0 && ParkedCount(s) == 0
      && Remaining(c, s) == c.L
      && s.client.down == (if s.h.granted then [c.L] else [])
    else
      Remaining(c, s) == s.client.credit + |s.client.up| + Uncharged(s.reader) + ParkedCount(s)
  }

  /** A TCP stream that is open, with a client that keeps to its credit. */
  ghost predicate Live(c: Config, s: State) { c.tcp && c.obedient && s.flags.isOpen && s.flags.connOpen }

  /** Under stream confirmation the first grant is the server's, sent once, when the dial is done. */
  ghost predicate GrantOnce(c: Config, s: State)
  {
    && (!c.confirm ==> s.h.granted)
    && (c.confirm && s.h.granted ==> !s.connector.Checking? && !s.connector.Dialing? && !s.connector.Dialed?)
  }

  ghost predicate Credited(c: Config, s: State)
  {
    Counter(c, s) && GrantOnce(c, s) && (Live(c, s) ==> Balance(c, s) && (s.h.continues > 0 ==> ParkedCount(s) == 0))
  }

  // ---------------------------------------------------------------- the counter

  /** The counter alone, and the CONTINUEs it caused, after any number of charged packets. */
  function AfterCharges(L: nat, n: nat): (r: (nat, nat))
    requires L > 0
    ensures 1 <= r.0 <= L
  {
    if n == 0 then (L, 0)
    else
      var (remaining, sent) := AfterCharges(L, n - 1);
      var (left, exhausted) := Charge(L, remaining);
      (left, sent + if exhausted then 1 else 0)
  }

  lemma ContinueEveryLPackets(L: nat, n: nat)
    requires L > 0
    ensures AfterCharges(L, n) == (L - n % L, n / L)
  {
    var (remaining, sent) := AfterCharges(L, n);
    Balanced(L, n);
    DivMod(n, L, sent, L - remaining);
  }

  lemma {:induction false} Balanced(L: nat, n: nat)
    requires L > 0
    ensures n == AfterCharges(L, n).1 * L + (L - AfterCharges(L, n).0)
  {
    if n > 0 {
      Balanced(L, n - 1);
      var sent := AfterCharges(L, n - 1).1;
      assert (sent + 1) * L == sent * L + L;
    }
  }

  // ---------------------------------------------------------------- preservation

  lemma ReaderKeepsCredited(c: Config, s: State, a: Action, t: State)
    requires c.L > 0 && Credited(c, s) && Ctl(c, s) && StepReader(c, s, a) == Some(t)
    ensures Credited(c, t)
  {
    ReaderFrame(c, s, a, t);
    if s.reader.Charging? && a.ReaderSteps? {
      ChargeKeepsCredited(c, s);
    } else {
      NoChargeKeepsCounter(c, s, a, t);
      if Live(c, s) {
        if s.h.continues > 0 {
          ContinuedMeansQueued(c, s);
        }
        ReaderKeepsBalance(c, s, a, t);
      }
    }
  }

  lemma NoChargeKeepsCounter(c: Config, s: State, a: Action, t: State)
    requires c.L > 0 && StepReader(c, s, a) == Some(t) && !(s.reader.Charging? && a.ReaderSteps?)
    requires Counter(c, s)
    ensures Counter(c, t) && t.stream.bufferRemaining == s.stream.bufferRemaining && t.h.continues == s.h.continues
  {
    ReaderFrame(c, s, a, t);
    NoChargeFrame(c, s, a, t);
  }

  lemma NoChargeFrame(c: Config, s: State, a: Action, t: State)
    requires StepReader(c, s, a) == Some(t) && !(s.reader.Charging? && a.ReaderSteps?)
    ensures t.stream.bufferRemaining == s.stream.bufferRemaining
    ensures t.h.charged == s.h.charged && t.h.continues == s.h.continues && t.h.granted == s.h.granted
    ensures |t.h.queued| >= |s.h.queued|
  {
  }

  lemma ContinuedMeansQueued(c: Config, s: State)
    requires c.L > 0 && Counter(c, s) && s.h.continues > 0
    ensures s.h.queued != []
  {
    assert s.h.continues * c.L >= c.L;
  }

  lemma ReaderKeepsBalance(c: Config, s: State, a: Action, t: State)
    requires c.L > 0 && StepReader(c, s, a) == Some(t) && !(s.reader.Charging? && a.ReaderSteps?)
    requires Ctl(c, s) && Live(c, s) && Balance(c, s) && 1 <= Remaining(c, s) && (s.h.continues > 0 ==> ParkedCount(s) == 0)
    requires s.h.continues > 0 ==> s.h.queued != []
    ensures Balance(c, t) && (t.h.continues > 0 ==> ParkedCount(t) == 0)
  {
    ReaderFrame(c, s, a, t);
    NoChargeFrame(c, s, a, t);
  }

  lemma ChargeKeepsCredited(c: Config, s: State)
    requires c.L > 0 && Credited(c, s) && Ctl(c, s) && s.reader.Charging?
    ensures s.stream.bufferRemaining > 0 && Credited(c, ChargeStep(c, s).(reader := Returning(s.reader.p, s.reader.keep)))
  {
    assert (s.h.continues + 1) * c.L == s.h.continues * c.L + c.L;
    var t := ChargeStep(c, s).(reader := Returning(s.reader.p, s.reader.keep));
    assert t.flags == s.flags && t.h == s.h.(charged := t.h.charged, continues := t.h.continues);
    assert Remaining(c, t) == t.stream.bufferRemaining;
    assert Counter(c, t);
  }

  lemma ConnectorKeepsCredited(c: Config, s: State, a: Action, t: State)
    requires c.L > 0 && Credited(c, s) && Ctl(c, s) && StepConnector(c, s, a) == Some(t)
    ensures Credited(c, t)
  {
    ConnectorFrame(c, s, a, t);
    ConnectorStreamFrame(c, s, a, t);
    ConnectorKeepsCounter(c, s, a, t);
    if Live(c, s) {
      ConnectorKeepsBalance(c, s, a, t);
    }
  }

  lemma ConnectorKeepsCounter(c: Config, s: State, a: Action, t: State)
    requires c.L > 0 && Counter(c, s) && GrantOnce(c, s) && Phases(c, s) && StepConnector(c, s, a) == Some(t)
    ensures Remaining(c, t) == Remaining(c, s)
    ensures Counter(c, t) && GrantOnce(c, t)
  {
    ConnectorFrame(c, s, a, t);
    if a.Starts? {
      assert s.h.charged == 0 ==> s.h.continues * c.L + (c.L - c.L) == s.h.charged;
    }
  }

  lemma ConnectorKeepsBalance(c: Config, s: State, a: Action, t: State)
    requires c.L > 0 && Balance(c, s) && GrantOnce(c, s) && Ctl(c, s) && Live(c, s) && StepConnector(c, s, a) == Some(t)
    requires Remaining(c, t) == Remaining(c, s)
    ensures Balance(c, t)
  {
    ConnectorFrame(c, s, a, t);
  }

  lemma WriterKeepsCredited(c: Config, s: State, a: Action, t: State)
    requires Credited(c, s) && StepWriter(s, a) == Some(t)
    ensures Credited(c, t)
  {
    assert t.flags == s.flags && t.client == s.client && t.reader == s.reader && t.connector == s.connector;
    assert t.stream.bufferRemaining == s.stream.bufferRemaining && t.h == s.h.(released := t.h.released);
  }

  lemma CloserKeepsCredited(c: Config, s: State, a: Action, t: State)
    requires Credited(c, s) && Phases(c, s) && StepCloser(s, a) == Some(t)
    ensures Credited(c, t)
  {
    CloserFrame(s, a, t);
    assert t.stream.bufferRemaining == s.stream.bufferRemaining;
    if t.flags.isOpen {
      CloserWhileOpen(c, s, a, t);
    }
  }

  lemma ClientKeepsCredited(c: Config, s: State, a: Action, t: State)
    requires Credited(c, s) && StepClient(c, s, a) == Some(t)
    ensures Credited(c, t)
  {
  }

  lemma EveryRunIsCredited(c: Config, trace: seq<Action>)
    requires c.L > 0
    ensures Exec(Steps(c), Init(c), trace).Some?
        ==> var t := Exec(Steps(c), Init(c), trace).value; Ctl(c, t) && Credited(c, t)
  {
    var inv := (s: State) => Ctl(c, s) && Credited(c, s);
    forall s: State, a: Action | inv(s) && Steps(c)(s, a).Some?
      ensures inv(Steps(c)(s, a).value)
    {
      StepKeepsCtl(c, s, a, Step(c, s, a).value);
      StepKeepsCredited(c, s, a, Step(c, s, a).value);
    }
    Invariance(Steps(c), inv, Init(c), trace);
  }

  lemma StepKeepsCredited(c: Config, s: State, a: Action, t: State)
    requires c.L > 0 && Credited(c, s) && Ctl(c, s) && Step(c, s, a) == Some(t)
    ensures Credited(c, t)
  {
    match ThreadOf(a)
    case ByClient => ClientKeepsCredited(c, s, a, t);
    case ByReader => ReaderKeepsCredited(c, s, a, t);
    case ByConnector => ConnectorKeepsCredited(c, s, a, t);
    case ByWriter => WriterKeepsCredited(c, s, a, t);
    case ByCloser => CloserKeepsCredited(c, s, a, t);
  }

  // ---------------------------------------------------------------- theorems over all runs

  /** With k packets parked and no CONTINUE under way, the server's counter is the client's credit
      plus the packets under way plus k; a CONTINUE under way means k = 0, no credit, no packet
      under way and a full counter.  After n charged packets n / L CONTINUEs went out. */
  lemma CreditBalance(c: Config, trace: seq<Action>, t: State)
    requires c.L > 0 && c.tcp && c.obedient && Exec(Steps(c), Init(c), trace) == Some(t)
    requires t.flags.isOpen && t.flags.connOpen && t.flags.started && t.h.granted
    ensures t.client.down == []
        ==> t.stream.bufferRemaining == t.client.credit + |t.client.up| + Uncharged(t.reader) + ParkedCount(t)
    ensures t.client.down != []
        ==> t.client.down == [c.L] && t.client.credit == 0 && t.client.up == [] && Uncharged(t.reader) == 0
            && t.stream.bufferRemaining == c.L && ParkedCount(t) == 0
    ensures t.h.continues == t.h.charged / c.L && t.stream.bufferRemaining == c.L - t.h.charged % c.L
  {
    EveryRunIsCredited(c, trace);
    DivMod(t.h.charged, c.L, t.h.continues, c.L - t.stream.bufferRemaining);
  }

  /** A stream that is not TCP has no credit: no packet charged, no CONTINUE, a counter never touched. */
  ghost predicate Uncredited(c: Config, s: State)
  {
    && s.client.down == [] && s.h.charged == 0 && s.h.continues == 0
    && (s.flags.started ==> s.stream.bufferRemaining == c.L)
  }

  lemma StepKeepsUncredited(c: Config, s: State, a: Action, t: State)
    requires !c.tcp && Ctl(c, s) && Uncredited(c, s) && Step(c, s, a) == Some(t)
    ensures Uncredited(c, t)
  {
    match ThreadOf(a)
    case ByClient =>
    case ByReader =>
      ReaderFrame(c, s, a, t);
      ReaderUncredited(c, s, a, t);
    case ByConnector =>
      ConnectorFrame(c, s, a, t);
      ConnectorUncredited(c, s, a, t);
    case ByWriter => WriterUncredited(s, a, t);
    case ByCloser =>
      CloserFrame(s, a, t);
      assert t.stream.bufferRemaining == s.stream.bufferRemaining;
  }

  lemma ReaderUncredited(c: Config, s: State, a: Action, t: State)
    requires !c.tcp && ReaderPhases(c, s) && StepReader(c, s, a) == Some(t)
    ensures t.client.down == s.client.down && t.h.charged == s.h.charged && t.h.continues == s.h.continues
    ensures t.stream.bufferRemaining == s.stream.bufferRemaining
  {
  }

  lemma ConnectorUncredited(c: Config, s: State, a: Action, t: State)
    requires !c.tcp && StepConnector(c, s, a) == Some(t)
    ensures t.client == s.client
    ensures t.stream.bufferRemaining == if a.Starts? then c.L else s.stream.bufferRemaining
    ensures t.flags.started == (s.flags.started || a.Starts?)
  {
  }

  lemma WriterUncredited(s: State, a: Action, t: State)
    requires StepWriter(s, a) == Some(t)
    ensures t.client == s.client && t.flags == s.flags && t.stream.bufferRemaining == s.stream.bufferRemaining
    ensures t.h == s.h.(released := t.h.released)
  {
  }

  /** In every run of any client, with or without confirmation. */
  lemma OnlyTcpHasCredit(c: Config, trace: seq<Action>, t: State)
    requires !c.tcp && Exec(Steps(c), Init(c), trace) == Some(t)
    ensures t.client.down == [] && t.h.charged == 0 && t.h.continues == 0
    ensures t.flags.started ==> t.stream.bufferRemaining == c.L
  {
    var inv := (s: State) => Ctl(c, s) && Uncredited(c, s);
    forall s: State, a: Action | inv(s) && Steps(c)(s, a).Some?
      ensures inv(Steps(c)(s, a).value)
    {
      StepKeepsCtl(c, s, a, Step(c, s, a).value);
      StepKeepsUncredited(c, s, a, Step(c, s, a).value);
    }
    Invariance(Steps(c), inv, Init(c), trace);
  }

  /** On a connection that is closed no CONTINUE is sent. */
  lemma ClosedSendsNothing(c: Config, s: State, a: Action, t: State)
    requires !s.flags.connOpen && Step(c, s, a) == Some(t)
    ensures t.client.down == s.client.down || (a.ClientReceives? && t.client.down == s.client.down[1..])
  {
    match ThreadOf(a)
    case ByWriter => WriterUncredited(s, a, t);
    case ByCloser => CloserFrame(s, a, t);
    case _ =>
  }

  /** Before the dial is done. */
  predicate BeforeGrant(k: Connector) { k.Checking? || k.Dialing? || k.Dialed? }

  /** Under confirmation an open TCP stream has sent nothing before its dial is done, and later it has
      been granted credit. */
  ghost predicate Confirmed(c: Config, s: State)
  {
    c.confirm && c.tcp && s.flags.isOpen ==>
      && (BeforeGrant(s.connector) ==> !s.h.granted && s.client.down == [] && s.h.continues == 0)
      && (!BeforeGrant(s.connector) && !s.connector.Failing? ==> s.h.granted)
  }

  lemma StepKeepsConfirmed(c: Config, s: State, a: Action, t: State)
    requires c.L > 0 && Ctl(c, s) && Counter(c, s) && Confirmed(c, s) && Step(c, s, a) == Some(t)
    ensures Confirmed(c, t)
  {
    match ThreadOf(a)
    case ByClient =>
    case ByReader =>
      ReaderFrame(c, s, a, t);
      LogsGrow(c, s, a, t);
      if s.flags.isOpen && BeforeGrant(s.connector) {
        ReaderConfirmed(c, s, a, t);
      }
    case ByConnector => ConnectorConfirmed(c, s, a, t);
    case ByWriter => WriterUncredited(s, a, t);
    case ByCloser => CloserFrame(s, a, t);
  }

  lemma ReaderConfirmed(c: Config, s: State, a: Action, t: State)
    requires Phases(c, s) && ReaderPhases(c, s) && StepReader(c, s, a) == Some(t) && s.flags.isOpen && BeforeGrant(s.connector)
    ensures t.client.down == s.client.down && t.h.continues == s.h.continues
  {
  }

  lemma ConnectorConfirmed(c: Config, s: State, a: Action, t: State)
    requires Phases(c, s) && Confirmed(c, s) && StepConnector(c, s, a) == Some(t)
    ensures Confirmed(c, t)
  {
    ConnectorFrame(c, s, a, t);
    ConnectorStreamFrame(c, s, a, t);
  }

  /** Under confirmation, in every run of any client: an open TCP stream sends no CONTINUE before its dial
      is done, and then at once one that carries L, if the connection is open. */
  lemma FirstGrantAtDial(c: Config, trace: seq<Action>, s: State)
    requires c.L > 0 && c.confirm && c.tcp && Exec(Steps(c), Init(c), trace) == Some(s) && s.flags.isOpen
    ensures BeforeGrant(s.connector) ==> s.client.down == [] && s.h.continues == 0 && !s.h.granted
    ensures s.connector.Dialed? ==>
      var t := Step(c, s, ConnectorSteps);
      && t.Some? && t.value.h.granted && !BeforeGrant(t.value.connector)
      && t.value.client.down == if s.flags.connOpen then [c.L] else []
    ensures !BeforeGrant(s.connector) && !s.connector.Failing? ==> s.h.granted
  {
    EveryRunConfirms(c, trace);
  }

  lemma EveryRunConfirms(c: Config, trace: seq<Action>)
    requires c.L > 0
    ensures Exec(Steps(c), Init(c), trace).Some?
        ==> var t := Exec(Steps(c), Init(c), trace).value; Ctl(c, t) && Credited(c, t) && Confirmed(c, t)
  {
    var inv := (s: State) => Ctl(c, s) && Credited(c, s) && Confirmed(c, s);
    forall s: State, a: Action | inv(s) && Steps(c)(s, a).Some?
      ensures inv(Steps(c)(s, a).value)
    {
      StepKeepsCtl(c, s, a, Step(c, s, a).value);
      StepKeepsCredited(c, s, a, Step(c, s, a).value);
      StepKeepsConfirmed(c, s, a, Step(c, s, a).value);
    }
    Invariance(Steps(c), inv, Init(c), trace);
  }

  /** The client has no credit and nothing is under way in either direction. */
  ghost predicate Stalled(c: Config, s: State)
  {
    Live(c, s) && s.flags.started && s.h.granted && s.reader.Idle? && s.client == Client(0, [], [])
  }

  /** A stall needs a parked packet: the counter is stuck at the number parked. */
  lemma StallMeansParked(c: Config, trace: seq<Action>, t: State)
    requires c.L > 0 && Exec(Steps(c), Init(c), trace) == Some(t) && Stalled(c, t)
    ensures t.stream.bufferRemaining == ParkedCount(t) >= 1
  {
    EveryRunIsCredited(c, trace);
  }

  /** Once a packet was parked no CONTINUE is ever sent, and the client can send at most L packets. */
  lemma ParkedNeverContinues(c: Config, trace: seq<Action>, t: State)
    requires c.L > 0 && Exec(Steps(c), Init(c), trace) == Some(t) && Live(c, t) && ParkedCount(t) >= 1
    ensures t.h.continues == 0 && t.client.down == []
    ensures t.h.charged + ParkedCount(t) + Uncharged(t.reader) + |t.client.up| + t.client.credit == c.L
  {
    EveryRunIsCredited(c, trace);
  }

  /** A stall is permanent: whatever moves, as long as stream and connection stay open. */
  lemma StallIsPermanent(c: Config, s: State, a: Action, t: State)
    requires Stalled(c, s) && GrantOnce(c, s) && Step(c, s, a) == Some(t) && Live(c, t)
    ensures Stalled(c, t)
  {
    match ThreadOf(a)
    case ByConnector =>
      ConnectorFrame(c, s, a, t);
      ConnectorStreamFrame(c, s, a, t);
    case ByCloser => CloserFrame(s, a, t);
    case _ =>
  }

  lemma {:induction false} StallLasts(c: Config, trace: seq<Action>, s: State, more: seq<Action>, t: State)
    requires c.L > 0 && Exec(Steps(c), Init(c), trace) == Some(s) && Stalled(c, s)
    requires Exec(Steps(c), s, more) == Some(t) && Live(c, t)
    ensures Stalled(c, t)
    decreases |more|
  {
    if more != [] {
      var u := Step(c, s, more[0]).value;
      ExecConcat(Steps(c), Init(c), trace, [more[0]]);
      assert [more[0]][1..] == [];
      EveryRunIsCredited(c, trace);
      StaysClosed(c, u, more[1..], t);
      StallIsPermanent(c, s, more[0], u);
      StallLasts(c, trace + [more[0]], u, more[1..], t);
    }
  }

  lemma {:induction false} StaysClosed(c: Config, s: State, more: seq<Action>, t: State)
    requires Exec(Steps(c), s, more) == Some(t) && t.flags.isOpen && t.flags.connOpen
    ensures s.flags.isOpen && s.flags.connOpen
    decreases |more|
  {
    if more != [] {
      var u := Step(c, s, more[0]).value;
      StaysClosed(c, u, more[1..], t);
      NeverReopens(c, s, more[0], u);
    }
  }

  lemma NeverReopens(c: Config, s: State, a: Action, t: State)
    requires Step(c, s, a) == Some(t) && t.flags.isOpen && t.flags.connOpen
    ensures s.flags.isOpen && s.flags.connOpen
  {
    match ThreadOf(a)
    case ByReader => ReaderFrame(c, s, a, t);
    case ByConnector => ConnectorStreamFrame(c, s, a, t);
    case _ =>
  }

  // ---------------------------------------------------------------- reaching the stall

  ghost predicate Settled(c: Config, s: State)
  {
    Ctl(c, s) && Credited(c, s) && Live(c, s) && s.flags.ready && s.h.granted && ParkedCount(s) >= 1
  }

  lemma GoSettled(c: Config, s: State, t: State, a: Action) returns (u: State)
    requires c.L > 0 && Reaches(Steps(c), s, t) && Settled(c, t) && (a.ClientSends? || a.Arrive? || a.ReaderSteps?)
    requires Step(c, t, a).Some?
    ensures Step(c, t, a) == Some(u) && Reaches(Steps(c), s, u) && Settled(c, u)
  {
    u := Go(Steps(c), s, t, a);
    StepKeepsCtl(c, t, a, u);
    StepKeepsCredited(c, t, a, u);
    if a.Arrive? || a.ReaderSteps? {
      ReaderFrame(c, t, a, u);
      LogsGrow(c, t, a, u);
    }
  }

  lemma LogsGrow(c: Config, s: State, a: Action, t: State)
    requires StepReader(c, s, a) == Some(t)
    ensures |t.h.parked| >= |s.h.parked| && |t.h.lost| >= |s.h.lost| && t.h.granted == s.h.granted
  {
  }

  /** A payload of this size finds room once the queue is drained; when a write has failed nothing
      drains it, but an empty payload always fits. */
  predicate Room(c: Config, s: State, size: nat) { size <= c.cap && (s.stream.dead ==> size == 0) }

  /** No packet under way is refused for its size: neither the reader's nor one on its way up. */
  ghost predicate Fitting(c: Config, s: State)
  {
    && !s.reader.Refusing?
    && (ReaderRank(s.reader) >= 4 ==> Room(c, s, |s.reader.p.payload|))
    && (s.reader.InLock? ==> s.stream.pendingBytes + |s.reader.p.payload| <= PARK_LIMIT)
    && (forall x <- s.client.up :: Room(c, s, |x|))
  }

  /** How far the reader is from its next packet, on a stream it finds ready. */
  function ReaderRank(r: Reader): nat
  {
    match r
    case Got(_) => 11
    case Passed(_) => 10
    case AtLock(_) => 10
    case SawReady(_) => 9
    case Checks(_, n) => if n < 3 then 8 - n else 5
    case AtQueue(_) => 4
    case InLock(_) => 3
    case Charging(_, _) => 3
    case Returning(_, _) => 2
    case _ => 0
  }

  /** While writes succeed the ingress writer makes room. */
  lemma {:induction false} QueueDrains(c: Config, s0: State, s: State) returns (t: State)
    requires c.L > 0 && Reaches(Steps(c), s0, s) && Settled(c, s) && !s.stream.dead
    ensures Reaches(Steps(c), s0, t) && Settled(c, t) && !t.stream.dead && t.stream.q.pending == []
    ensures t.reader == s.reader && t.client == s.client && t.stream.pendingBytes == s.stream.pendingBytes
    decreases |s.stream.q.pending|, Delivery.WriterPhase(s.writer)
  {
    if s.writer.NoWriter? {
      return s;
    }
    var a, u := Delivery.WriterAdvances(c, s);
    ReachesStep(Steps(c), s0, s, a, u);
    WriterKeepsSettled(c, s, a, u);
    t := QueueDrains(c, s0, u);
  }

  lemma WriterKeepsSettled(c: Config, s: State, a: Action, t: State)
    requires c.L > 0 && Settled(c, s) && Ctl(c, t) && ThreadOf(a) == ByWriter && Step(c, s, a) == Some(t)
    ensures Settled(c, t) && t.client == s.client && t.stream.pendingBytes == s.stream.pendingBytes
  {
    WriterKeepsCredited(c, s, a, t);
    Delivery.WriterFrame(s, a, t);
    WriterLeavesClient(s, a, t);
  }

  lemma WriterLeavesClient(s: State, a: Action, t: State)
    requires StepWriter(s, a) == Some(t)
    ensures t.client == s.client && t.stream.pendingBytes == s.stream.pendingBytes
  {
  }

  /** The reader's next step on a ready stream, with room made for its packet. */
  lemma ReaderAdvances(c: Config, s0: State, s: State) returns (t: State)
    requires c.L > 0 && Reaches(Steps(c), s0, s) && Settled(c, s) && Fitting(c, s) && !s.reader.Idle?
    ensures Reaches(Steps(c), s0, t) && Settled(c, t) && Fitting(c, t) && t.client == s.client
    ensures ReaderRank(t.reader) < ReaderRank(s.reader)
  {
    t := s;
    if s.reader.AtQueue? && !s.stream.dead {
      t := QueueDrains(c, s0, s);
    }
    ReaderMovesOn(c, t);
    t := GoSettled(c, s0, t, ReaderSteps);
  }

  lemma ReaderMovesOn(c: Config, s: State)
    requires c.L > 0 && Settled(c, s) && Fitting(c, s) && !s.reader.Idle?
    requires s.reader.AtQueue? ==> s.stream.dead || s.stream.q.pending == []
    ensures Step(c, s, ReaderSteps).Some?
    ensures var t := Step(c, s, ReaderSteps).value;
      Fitting(c, t) && t.client == s.client && ReaderRank(t.reader) < ReaderRank(s.reader)
  {
  }

  /** From every state of a live, granted, ready stream with a packet parked, in which no packet under way
      is refused for its size, the client runs into the stall by using up its credit. */
  lemma {:induction false} StallReachable(c: Config, s0: State, s: State) returns (t: State)
    requires c.L > 0 && Reaches(Steps(c), s0, s) && Settled(c, s) && Fitting(c, s)
    ensures Reaches(Steps(c), s0, t) && Stalled(c, t)
    decreases s.client.credit, |s.client.up|, ReaderRank(s.reader)
  {
    if !s.reader.Idle? {
      t := ReaderAdvances(c, s0, s);
    } else if s.client.up != [] {
      t := GoSettled(c, s0, s, Arrive(false));
    } else if s.client.credit > 0 {
      t := GoSettled(c, s0, s, ClientSends([]));
    } else {
      return s;
    }
    t := StallReachable(c, s0, t);
  }

  /** In any case such a stream has a run that stalls it or closes it. */
  lemma StallsOrCloses(c: Config, s0: State, s: State) returns (t: State)
    requires c.L > 0 && Reaches(Steps(c), s0, s) && Settled(c, s)
    ensures Reaches(Steps(c), s0, t) && (Stalled(c, t) || !t.flags.isOpen)
    ensures Fitting(c, s) ==> Stalled(c, t)
  {
    if Fitting(c, s) {
      t := StallReachable(c, s0, s);
    } else {
      t := Go(Steps(c), s0, s, CloseCalled);
    }
  }

  /** Every TCP configuration, with or without stream confirmation, has a run into the stall. */
  lemma SomeRunStalls(c: Config) returns (t: State)
    requires c.L > 0 && c.tcp && c.obedient
    ensures Reaches(Steps(c), Init(c), t) && Stalled(c, t)
  {
    var s := Delivery.LateParkIsLost(c, []);
    var trace: seq<Action> :| Exec(Steps(c), Init(c), trace) == Some(s);
    EveryRunIsCredited(c, trace);
    assert |s.h.lost| == 1;
    t := StallReachable(c, Init(c), s);
  }
}

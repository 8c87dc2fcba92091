/** The Wisp v2 handshake gate: which packets take effect on a connection, before and after the one
    INFO packet that completes the handshake. */
module Handshake {
  import opened Bytes
  import opened Extensions
  import opened Wrappers

  const TYPE_CONNECT: byte := 1
  const TYPE_DATA: byte := 2
  const TYPE_CLOSE: byte := 4
  const TYPE_INFO: byte := 5
  const TYPE_TWISP_RESIZE: byte := 0xF0
  const STREAM_TERM: byte := 3
  const MAJOR_VERSION: byte := 2

  const REASON_INCOMPATIBLE: byte := 0x04
  const REASON_INVALID: byte := 0x41
  const REASON_BLOCKED: byte := 0x48
  const REASON_THROTTLED: byte := 0x49
  const REASON_BAD_PASSWORD: byte := 0xc0
  const REASON_AUTH_REQUIRED: byte := 0xc2

  /** The options the gate depends on; check is the password comparison, utf8 the encoding test. */
  datatype Config = Config(
    enableV2: bool,
    enableTwisp: bool,
    passwordAuth: bool,
    passwordAuthRequired: bool,
    users: map<seq<byte>, seq<byte>>,
    check: (seq<byte>, seq<byte>) -> bool,
    utf8: seq<byte> -> bool)

  /** The fields of the connection; pending says that handshakeDone is not nil. */
  datatype Gate = Gate(isV2: bool, pending: bool, authenticated: bool, streamConfirm: bool, closed: bool)

  datatype Effect =
    | Completed
    | ConnectionClosed(reason: byte)
    | ClosedByPeer
    | StreamOpened(streamId: nat)
    | DataHandled(streamId: nat)
    | StreamClosed(streamId: nat)
    | TwispLaunched(streamId: nat)
    | TwispResized(streamId: nat)
    | Refused(streamId: nat, reason: byte)

  /** One packet as the read loop hands it over, and whether the flood limits refuse a CONNECT now. */
  datatype Input = Input(packet: seq<byte>, throttled: bool)

  /** The upgrade: v2 needs the option and a protocol header; some options insist on v2. */
  function Upgrade(cfg: Config, hasProtocol: bool): Option<Gate>
  {
    var useV2 := cfg.enableV2 && hasProtocol;
    if (cfg.passwordAuthRequired || cfg.enableTwisp) && !useV2 then None
    else Some(Gate(useV2, useV2, false, false, false))
  }

  // ---------------------------------------------------------------- INFO

  datatype Verdict = Pass(authPassed: bool, streamConfirm: bool) | Fail(reason: byte)

  /** Version, extension list and password checks, in this order. */
  function JudgeInfo(cfg: Config, payload: seq<byte>): Verdict
  {
    if |payload| < 2 || payload[0] != MAJOR_VERSION then Fail(REASON_INCOMPATIBLE)
    else match ParseFrom(payload[2..], NO_EXTS)
      case None => Fail(REASON_INCOMPATIBLE)
      case Some(x) =>
        var offered := cfg.passwordAuth && x.passwordUsername != [];
        var accepted := offered && x.passwordUsername in cfg.users && cfg.check(cfg.users[x.passwordUsername], x.passwordPassword);
        if offered && !accepted then Fail(REASON_BAD_PASSWORD)
        else if cfg.passwordAuthRequired && !accepted then Fail(REASON_AUTH_REQUIRED)
        else Pass(accepted, x.streamConfirm)
  }

  function OnInfo(cfg: Config, g: Gate, streamId: nat, payload: seq<byte>): (Gate, seq<Effect>)
  {
    if streamId != 0 || !g.pending then (g, [])
    else match JudgeInfo(cfg, payload)
      case Fail(reason) => (g.(closed := true), [ConnectionClosed(reason)])
      case Pass(authPassed, streamConfirm) =>
        (g.(pending := false, authenticated := authPassed, streamConfirm := streamConfirm), [Completed])
  }

  // ---------------------------------------------------------------- CONNECT and the others

  function OnConnect(cfg: Config, g: Gate, streamId: nat, payload: seq<byte>, throttled: bool): seq<Effect>
  {
    if |payload| < 3 then [Refused(streamId, REASON_INVALID)]
    else
      var term, port, hostname := payload[0] == STREAM_TERM, FromLe(payload[1..3]), payload[3..];
      if streamId == 0 || (port == 0 && !term) || hostname == [] || !cfg.utf8(hostname) then [Refused(streamId, REASON_INVALID)]
      else if throttled then [Refused(streamId, REASON_THROTTLED)]
      else if term then
        if !cfg.enableTwisp || !g.isV2 || !cfg.passwordAuth || !g.authenticated then [Refused(streamId, REASON_BLOCKED)]
        else [TwispLaunched(streamId)]
      else [StreamOpened(streamId)]
  }

  function OnClose(g: Gate, streamId: nat, payload: seq<byte>): (Gate, seq<Effect>)
  {
    if |payload| < 1 then (g, [])
    else if streamId == 0 then (g.(closed := true), [ClosedByPeer])
    else (g, [StreamClosed(streamId)])
  }

  /** handleWispFrame and handlePacket. */
  function OnPacket(cfg: Config, g: Gate, i: Input): (Gate, seq<Effect>)
  {
    if |i.packet| < 5 then (g, [])
    else
      var kind, streamId, payload := i.packet[0], FromLe(i.packet[1..5]), i.packet[5..];
      if g.isV2 && g.pending && kind != TYPE_INFO && !(kind == TYPE_CLOSE && streamId == 0) then (g, [])
      else if kind == TYPE_DATA then (g, [DataHandled(streamId)])
      else if kind == TYPE_INFO then (if g.isV2 then OnInfo(cfg, g, streamId, payload) else (g, []))
      else if kind == TYPE_CONNECT then (g, OnConnect(cfg, g, streamId, payload, i.throttled))
      else if kind == TYPE_CLOSE then OnClose(g, streamId, payload)
      else if kind == TYPE_TWISP_RESIZE && cfg.enableTwisp && |payload| >= 4 then (g, [TwispResized(streamId)])
      else (g, [])
  }

  function Run(cfg: Config, g: Gate, inputs: seq<Input>): (Gate, seq<Effect>)
    decreases |inputs|
  {
    if inputs == [] then (g, [])
    else
      var (h, now) := OnPacket(cfg, g, inputs[0]);
      var (last, later) := Run(cfg, h, inputs[1..]);
      (last, now + later)
  }

  // ---------------------------------------------------------------- the object

  class Connection {
    const cfg: Config
    const isV2: bool
    var handshakeDone: bool
    var authenticated: bool
    var streamConfirm: bool
    var isClosed: bool
    var log: seq<Effect>

    function View(): Gate
      reads this
    {
      Gate(isV2, !handshakeDone, authenticated, streamConfirm, isClosed)
    }

    /** createWispHandler and v2Handshake: a v1 connection has no handshake to wait for. */
    constructor (cfg: Config, useV2: bool)
      ensures View() == Gate(useV2, useV2, false, false, false) && log == [] && this.cfg == cfg
    {
      this.cfg, isV2, handshakeDone := cfg, useV2, !useV2;
      authenticated, streamConfirm, isClosed, log := false, false, false, [];
    }

    method CloseConnection(e: Effect)
      modifies this`isClosed, this`log
      ensures isClosed && log == old(log) + [e]
    {
      isClosed := true;
      log := log + [e];
    }

    method HandleInfo(streamId: nat, payload: seq<byte>)
      modifies this
      ensures View() == OnInfo(cfg, old(View()), streamId, payload).0
      ensures log == old(log) + OnInfo(cfg, old(View()), streamId, payload).1
    {
      assert log + [] == log;
      if streamId != 0 {
        return;
      }
      if handshakeDone {
        return;
      }
      if |payload| < 2 || payload[0] != MAJOR_VERSION {
        CloseConnection(ConnectionClosed(REASON_INCOMPATIBLE));
        return;
      }
      var parsed := ParseClientInfo(payload);
      if parsed.None? {
        CloseConnection(ConnectionClosed(REASON_INCOMPATIBLE));
        return;
      }
      var clientExts := parsed.value;
      var authPassed := false;
      if cfg.passwordAuth && clientExts.passwordUsername != [] {
        if clientExts.passwordUsername in cfg.users
          && cfg.check(cfg.users[clientExts.passwordUsername], clientExts.passwordPassword) {
          authPassed := true;
        } else {
          CloseConnection(ConnectionClosed(REASON_BAD_PASSWORD));
          return;
        }
      }
      if cfg.passwordAuthRequired && !authPassed {
        CloseConnection(ConnectionClosed(REASON_AUTH_REQUIRED));
        return;
      }
      authenticated := authPassed;
      streamConfirm := clientExts.streamConfirm;
      log := log + [Completed];
      handshakeDone := true;
    }

    method HandleWispFrame(i: Input)
      modifies this
      ensures View() == OnPacket(cfg, old(View()), i).0
      ensures log == old(log) + OnPacket(cfg, old(View()), i).1
    {
      assert log + [] == log;
      if |i.packet| < 5 {
        return;
      }
      var kind, streamId, payload := i.packet[0], FromLe(i.packet[1..5]), i.packet[5..];
      if isV2 && !handshakeDone {
        if kind == TYPE_INFO {
          HandleInfo(streamId, payload);
        } else if kind == TYPE_CLOSE && streamId == 0 && |payload| >= 1 {
          CloseConnection(ClosedByPeer);
        }
        return;
      }
      if kind == TYPE_DATA {
        log := log + [DataHandled(streamId)];
      } else if kind == TYPE_INFO {
        if isV2 {
          HandleInfo(streamId, payload);
        }
      } else if kind == TYPE_CONNECT {
        log := log + OnConnect(cfg, View(), streamId, payload, i.throttled);
      } else if kind == TYPE_CLOSE {
        if |payload| >= 1 {
          if streamId == 0 {
            CloseConnection(ClosedByPeer);
          } else {
            log := log + [StreamClosed(streamId)];
          }
        }
      } else if kind == TYPE_TWISP_RESIZE && cfg.enableTwisp && |payload| >= 4 {
        log := log + [TwispResized(streamId)];
      }
    }
  }

  // ---------------------------------------------------------------- whole runs

  /** Effects on streams or processes, which the gate must hold back. */
  predicate Guarded(e: Effect)
  {
    e.StreamOpened? || e.DataHandled? || e.StreamClosed? || e.TwispLaunched? || e.TwispResized? || e.Refused?
  }

  /** An INFO packet for stream 0 that passes every check. */
  predicate PassingInfo(cfg: Config, i: Input)
  {
    && |i.packet| >= 5 && i.packet[0] == TYPE_INFO && FromLe(i.packet[1..5]) == 0
    && JudgeInfo(cfg, i.packet[5..]).Pass?
  }

  /** Until an INFO passes, a v2 connection has no effect but closing, and it waits still. */
  lemma {:induction false} NothingBeforeInfo(cfg: Config, g: Gate, inputs: seq<Input>)
    requires g.isV2 && g.pending && forall i <- inputs :: !PassingInfo(cfg, i)
    ensures Run(cfg, g, inputs).0.(closed := g.closed) == g
    ensures forall e <- Run(cfg, g, inputs).1 :: !Guarded(e) && e != Completed
    decreases |inputs|
  {
    if inputs != [] {
      assert inputs[0] in inputs;
      NothingBeforeInfo(cfg, OnPacket(cfg, g, inputs[0]).0, inputs[1..]);
    }
  }

  /** The first passing INFO completes the handshake with its own verdict. */
  lemma FirstPassingInfo(cfg: Config, g: Gate, i: Input)
    requires g.isV2 && g.pending && PassingInfo(cfg, i)
    ensures var v := JudgeInfo(cfg, i.packet[5..]);
      OnPacket(cfg, g, i) == (g.(pending := false, authenticated := v.authPassed, streamConfirm := v.streamConfirm), [Completed])
  {
  }

  /** Once completed, the gate's fields never change again and no second completion happens. */
  lemma {:induction false} CompletedForGood(cfg: Config, g: Gate, inputs: seq<Input>)
    requires !g.pending
    ensures Run(cfg, g, inputs).0.(closed := g.closed) == g && Completed !in Run(cfg, g, inputs).1
    decreases |inputs|
  {
    if inputs != [] {
      CompletedForGood(cfg, OnPacket(cfg, g, inputs[0]).0, inputs[1..]);
    }
  }

  lemma {:induction false} RunConcat(cfg: Config, g: Gate, before: seq<Input>, after: seq<Input>)
    ensures var (h, es) := Run(cfg, g, before);
      Run(cfg, g, before + after) == (Run(cfg, h, after).0, es + Run(cfg, h, after).1)
    decreases |before|
  {
    if before == [] {
      assert before + after == after;
      assert [] + Run(cfg, g, after).1 == Run(cfg, g, after).1;
    } else {
      var h := OnPacket(cfg, g, before[0]).0;
      assert (before + after)[0] == before[0] && (before + after)[1..] == before[1..] + after;
      RunConcat(cfg, h, before[1..], after);
      Associate(OnPacket(cfg, g, before[0]).1, Run(cfg, h, before[1..]).1, Run(cfg, Run(cfg, h, before[1..]).0, after).1);
    }
  }

  /** A v2 connection's life: only closing effects, then one completion by the first INFO that passes,
      whose verdict stands for the rest of it. */
  lemma HandshakeOnce(cfg: Config, g: Gate, before: seq<Input>, i: Input, after: seq<Input>)
    requires g.isV2 && g.pending && (forall j <- before :: !PassingInfo(cfg, j)) && PassingInfo(cfg, i)
    ensures exists early: seq<Effect>, late: seq<Effect> ::
      && Run(cfg, g, before + [i] + after).1 == early + [Completed] + late
      && (forall e <- early :: !Guarded(e) && e != Completed) && Completed !in late
    ensures var h := Run(cfg, g, before + [i] + after).0;
      var v := JudgeInfo(cfg, i.packet[5..]);
      !h.pending && h.authenticated == v.authPassed && h.streamConfirm == v.streamConfirm
  {
    var (g1, early) := Run(cfg, g, before);
    NothingBeforeInfo(cfg, g, before);
    FirstPassingInfo(cfg, g1, i);
    var g2 := OnPacket(cfg, g1, i).0;
    var (h, late) := Run(cfg, g2, after);
    CompletedForGood(cfg, g2, after);
    RunConcat(cfg, g, before, [i]);
    assert [i][1..] == [];
    assert Run(cfg, g2, []) == (g2, []);
    assert Run(cfg, g1, [i]).0 == g2 && Run(cfg, g1, [i]).1 == [Completed];
    assert Run(cfg, g, before + [i]) == (g2, early + [Completed]);
    RunConcat(cfg, g, before + [i], after);
    assert Run(cfg, g, before + [i] + after) == (h, early + [Completed] + late);
  }

  ghost predicate Sound(cfg: Config, g: Gate)
  {
    && (cfg.passwordAuthRequired || cfg.enableTwisp ==> g.isV2)
    && (g.pending ==> g.isV2 && !g.authenticated)
    && (!g.pending && cfg.passwordAuthRequired ==> g.authenticated)
    && (g.authenticated ==> g.isV2 && cfg.passwordAuth)
  }

  lemma PacketKeepsSound(cfg: Config, g: Gate, i: Input)
    requires Sound(cfg, g)
    ensures Sound(cfg, OnPacket(cfg, g, i).0)
    ensures forall e <- OnPacket(cfg, g, i).1 ::
      && (Guarded(e) ==> !g.pending)
      && (e.TwispLaunched? ==> cfg.enableTwisp && g.isV2 && cfg.passwordAuth && g.authenticated)
  {
  }

  /** An INFO packet that passes and presents a listed user's password. */
  predicate PresentsPassword(cfg: Config, i: Input)
  {
    && PassingInfo(cfg, i)
    && |i.packet| >= 7 && ParseFrom(i.packet[7..], NO_EXTS).Some?
    && var x := ParseFrom(i.packet[7..], NO_EXTS).value;
      x.passwordUsername in cfg.users && cfg.check(cfg.users[x.passwordUsername], x.passwordPassword)
  }

  lemma AuthPassedMeansPassword(cfg: Config, i: Input)
    requires PassingInfo(cfg, i) && JudgeInfo(cfg, i.packet[5..]).authPassed
    ensures cfg.passwordAuth && PresentsPassword(cfg, i)
  {
    assert i.packet[5..][2..] == i.packet[7..];
  }

  /** Over a whole connection: with passwords required every effect on a stream is authenticated, a
      Twisp process is launched only on an authenticated v2 connection with password auth, and both
      stay so; authenticated means that an INFO presented a listed user's password. */
  lemma {:induction false} GuardedEffectsAreAuthorized(cfg: Config, g: Gate, inputs: seq<Input>)
    requires Sound(cfg, g)
    ensures var (h, es) := Run(cfg, g, inputs);
      && Sound(cfg, h)
      && (forall e <- es :: Guarded(e) ==> !h.pending && (cfg.passwordAuthRequired ==> h.authenticated))
      && (forall e <- es :: e.TwispLaunched? ==> cfg.enableTwisp && h.isV2 && cfg.passwordAuth && h.authenticated)
      && (h.authenticated && !g.authenticated ==> exists i <- inputs :: PresentsPassword(cfg, i))
    decreases |inputs|
  {
    if inputs != [] {
      var i := inputs[0];
      PacketKeepsSound(cfg, g, i);
      var h := OnPacket(cfg, g, i).0;
      GuardedEffectsAreAuthorized(cfg, h, inputs[1..]);
      if !g.pending {
        CompletedForGood(cfg, g, inputs);
      }
      if h.authenticated && !g.authenticated {
        AuthPassedMeansPassword(cfg, i);
      }
    }
  }

  /** Every accepted upgrade starts in such a state. */
  lemma UpgradeIsSound(cfg: Config, hasProtocol: bool)
    ensures Upgrade(cfg, hasProtocol).Some? ==> Sound(cfg, Upgrade(cfg, hasProtocol).value)
  {
  }
}

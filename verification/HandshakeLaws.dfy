/** What each packet of a client does to a connection, stated on the bytes of the packet, and what an INFO
    packet must say to be let in. */
module HandshakeLaws {
  import opened Bytes
  import opened FrameCodec
  import opened Extensions
  import opened ExtensionLaws
  import opened Handshake
  import opened Wrappers

  /** Version 1, or version 2 with the handshake behind it. */
  predicate Open(g: Gate) { !(g.isV2 && g.pending) }

  function Says(kind: byte, streamId: nat, payload: seq<byte>, throttled: bool): Input
    requires streamId < 0x1_0000_0000
  {
    Input(Packet(kind, streamId, payload), throttled)
  }

  lemma Fields(kind: byte, streamId: nat, payload: seq<byte>)
    requires streamId < 0x1_0000_0000
    ensures var p := Packet(kind, streamId, payload);
      |p| >= 5 && p[0] == kind && FromLe(p[1..5]) == streamId && p[5..] == payload
  {
    PacketReads(kind, streamId, payload);
  }

  // ---------------------------------------------------------------- DATA, CLOSE and the rest

  lemma DataGoesToItsStream(cfg: Config, g: Gate, streamId: nat, payload: seq<byte>, throttled: bool)
    requires Open(g) && streamId < 0x1_0000_0000
    ensures OnPacket(cfg, g, Says(2, streamId, payload, throttled)) == (g, [DataHandled(streamId)])
  {
    Fields(2, streamId, payload);
  }

  /** A reason is asked for; stream 0 stands for the connection, before the handshake as well. */
  lemma CloseClosesItsStream(cfg: Config, g: Gate, streamId: nat, payload: seq<byte>, throttled: bool)
    requires streamId < 0x1_0000_0000
    ensures Open(g) && streamId != 0 && payload != []
      ==> OnPacket(cfg, g, Says(4, streamId, payload, throttled)) == (g, [StreamClosed(streamId)])
    ensures streamId == 0 && payload != []
      ==> OnPacket(cfg, g, Says(4, streamId, payload, throttled)) == (g.(closed := true), [ClosedByPeer])
    ensures payload == [] ==> OnPacket(cfg, g, Says(4, streamId, payload, throttled)) == (g, [])
  {
    Fields(4, streamId, payload);
  }

  lemma ResizeNeedsTwisp(cfg: Config, g: Gate, streamId: nat, payload: seq<byte>, throttled: bool)
    requires Open(g) && streamId < 0x1_0000_0000
    ensures OnPacket(cfg, g, Says(0xF0, streamId, payload, throttled))
         == (g, if cfg.enableTwisp && |payload| >= 4 then [TwispResized(streamId)] else [])
  {
    Fields(0xF0, streamId, payload);
  }

  lemma OthersDoNothing(cfg: Config, g: Gate, kind: byte, streamId: nat, payload: seq<byte>, throttled: bool)
    requires Open(g) && streamId < 0x1_0000_0000 && kind !in {1, 2, 4, 0xF0}
    ensures OnPacket(cfg, g, Says(kind, streamId, payload, throttled)) == (g, [])
  {
    Fields(kind, streamId, payload);
  }

  lemma ShortPacketsDoNothing(cfg: Config, g: Gate, i: Input)
    requires |i.packet| < 5
    ensures OnPacket(cfg, g, i) == (g, [])
  {
  }

  // ---------------------------------------------------------------- CONNECT

  /** Stream type, little-endian port, hostname. */
  function Target(streamType: byte, port: nat, hostname: seq<byte>): seq<byte>
    requires port < 0x1_0000
  {
    [streamType] + LeBytes(port, 2) + hostname
  }

  lemma TargetReads(streamType: byte, port: nat, hostname: seq<byte>)
    requires port < 0x1_0000
    ensures var p := Target(streamType, port, hostname);
      |p| >= 3 && p[0] == streamType && FromLe(p[1..3]) == port && p[3..] == hostname
  {
    PowTable();
    FromLeBytes(port, 2);
    assert Target(streamType, port, hostname)[1..3] == LeBytes(port, 2);
  }

  lemma ConnectIs(cfg: Config, g: Gate, streamId: nat, streamType: byte, port: nat, hostname: seq<byte>, throttled: bool)
    requires Open(g) && streamId < 0x1_0000_0000 && port < 0x1_0000
    ensures OnPacket(cfg, g, Says(1, streamId, Target(streamType, port, hostname), throttled))
         == (g, OnConnect(cfg, g, streamId, Target(streamType, port, hostname), throttled))
  {
    Fields(1, streamId, Target(streamType, port, hostname));
  }

  /** A named target with a port, on a stream other than 0, is opened unless the limits say no. */
  lemma ConnectOpens(cfg: Config, g: Gate, streamId: nat, streamType: byte, port: nat, hostname: seq<byte>, throttled: bool)
    requires Open(g) && 0 < streamId < 0x1_0000_0000 && 0 < port < 0x1_0000 && streamType != 3
    requires hostname != [] && cfg.utf8(hostname)
    ensures OnPacket(cfg, g, Says(1, streamId, Target(streamType, port, hostname), throttled))
         == (g, if throttled then [Refused(streamId, 0x49)] else [StreamOpened(streamId)])
  {
    ConnectIs(cfg, g, streamId, streamType, port, hostname, throttled);
    TargetReads(streamType, port, hostname);
  }

  /** No stream, no name, a name that is no UTF-8, or no port for a stream that needs one. */
  lemma BadConnectIsRefused(cfg: Config, g: Gate, streamId: nat, streamType: byte, port: nat, hostname: seq<byte>, throttled: bool)
    requires Open(g) && streamId < 0x1_0000_0000 && port < 0x1_0000
    requires streamId == 0 || hostname == [] || !cfg.utf8(hostname) || (port == 0 && streamType != 3)
    ensures OnPacket(cfg, g, Says(1, streamId, Target(streamType, port, hostname), throttled)) == (g, [Refused(streamId, 0x41)])
  {
    ConnectIs(cfg, g, streamId, streamType, port, hostname, throttled);
    TargetReads(streamType, port, hostname);
  }

  lemma ShortConnectIsRefused(cfg: Config, g: Gate, streamId: nat, payload: seq<byte>, throttled: bool)
    requires Open(g) && streamId < 0x1_0000_0000 && |payload| < 3
    ensures OnPacket(cfg, g, Says(1, streamId, payload, throttled)) == (g, [Refused(streamId, 0x41)])
  {
    Fields(1, streamId, payload);
  }

  /** A command is launched exactly when Twisp is on, passwords are, and the client gave one. */
  lemma ConnectLaunches(cfg: Config, g: Gate, streamId: nat, port: nat, command: seq<byte>, throttled: bool)
    requires Open(g) && 0 < streamId < 0x1_0000_0000 && port < 0x1_0000 && command != [] && cfg.utf8(command)
    ensures var allowed := cfg.enableTwisp && g.isV2 && cfg.passwordAuth && g.authenticated;
      OnPacket(cfg, g, Says(1, streamId, Target(3, port, command), throttled))
      == (g, if throttled then [Refused(streamId, 0x49)]
             else if allowed then [TwispLaunched(streamId)] else [Refused(streamId, 0x48)])
  {
    ConnectIs(cfg, g, streamId, 3, port, command, throttled);
    TargetReads(3, port, command);
  }

  // ---------------------------------------------------------------- INFO

  /** A version 2 connection that waits. */
  predicate Waiting(g: Gate) { g.isV2 && g.pending }

  function Closing(g: Gate, reason: byte): (Gate, seq<Effect>) { (g.(closed := true), [ConnectionClosed(reason)]) }

  function LetIn(g: Gate, authenticated: bool, streamConfirm: bool): (Gate, seq<Effect>)
  {
    (g.(pending := false, authenticated := authenticated, streamConfirm := streamConfirm), [Completed])
  }

  /** Too short, or of another major version. */
  lemma OtherVersionIsClosed(cfg: Config, g: Gate, payload: seq<byte>, throttled: bool)
    requires Waiting(g) && (|payload| < 2 || payload[0] != 2)
    ensures OnPacket(cfg, g, Says(5, 0, payload, throttled)) == Closing(g, 0x04)
  {
    Fields(5, 0, payload);
  }

  /** Extensions that are no concatenation of well-formed entries. */
  lemma BadExtensionsAreClosed(cfg: Config, g: Gate, payload: seq<byte>, throttled: bool)
    requires Waiting(g) && 2 <= |payload| < 0x1_0000_0000 && payload[0] == 2
    requires !exists es: seq<Entry> :: EntriesOf(es, payload[2..])
    ensures OnPacket(cfg, g, Says(5, 0, payload, throttled)) == Closing(g, 0x04)
  {
    Fields(5, 0, payload);
    ParseIffEntries(payload);
  }

  /** Only stream 0 speaks for the connection. */
  lemma InfoOfAStreamDoesNothing(cfg: Config, g: Gate, streamId: nat, payload: seq<byte>, throttled: bool)
    requires 0 < streamId < 0x1_0000_0000
    ensures OnPacket(cfg, g, Says(5, streamId, payload, throttled)) == (g, [])
  {
    Fields(5, streamId, payload);
  }

  function Info(minor: byte, es: seq<Entry>): seq<byte> { [2, minor] + EncodeEntries(es) }

  ghost predicate Confirms(es: seq<Entry>) { exists e <- es :: e.id == 5 }

  /** No password offered: let in, not authenticated, unless one is required. */
  lemma InfoWithoutPassword(cfg: Config, g: Gate, minor: byte, es: seq<Entry>, throttled: bool)
    requires Waiting(g) && AllWell(es) && (forall e <- es :: e.id != 2 && Fits(e)) && |EncodeEntries(es)| < 0x1_0000_0000
    ensures OnPacket(cfg, g, Says(5, 0, Info(minor, es), throttled))
         == if cfg.passwordAuthRequired then Closing(g, 0xc2) else LetIn(g, false, Confirms(es))
  {
    Fields(5, 0, Info(minor, es));
    assert Info(minor, es)[2..] == EncodeEntries(es);
    ParsedNoPassword(es);
  }

  ghost predicate Sends(es: seq<Entry>, before: seq<Entry>, u: seq<byte>, p: seq<byte>, after: seq<Entry>)
  {
    && |u| < 256 && es == before + [PasswordEntry(u, p)] + after
    && AllWell(before) && AllWell(after) && (forall e <- after :: e.id != 2)
    && (forall e <- es :: Fits(e)) && |EncodeEntries(es)| < 0x1_0000_0000
  }

  lemma InfoReads(minor: byte, es: seq<Entry>, before: seq<Entry>, u: seq<byte>, p: seq<byte>, after: seq<Entry>)
    requires Sends(es, before, u, p, after)
    ensures var res := ParseFrom(Info(minor, es)[2..], NO_EXTS);
      && res.Some? && res.value.passwordUsername == u && res.value.passwordPassword == p
      && (res.value.streamConfirm <==> Confirms(es))
  {
    assert Info(minor, es)[2..] == EncodeEntries(es);
    ParsedPassword(before, u, p, after);
  }

  /** The last password offered counts: accepted if the user is listed and it matches, else the connection
      is closed.  An empty username, or a server without passwords, offers none. */
  lemma InfoWithPassword(cfg: Config, g: Gate, minor: byte, es: seq<Entry>, before: seq<Entry>, u: seq<byte>, p: seq<byte>, after: seq<Entry>, throttled: bool)
    requires Waiting(g) && Sends(es, before, u, p, after)
    ensures cfg.passwordAuth && u != []
      ==> OnPacket(cfg, g, Says(5, 0, Info(minor, es), throttled))
          == if u in cfg.users && cfg.check(cfg.users[u], p) then LetIn(g, true, Confirms(es)) else Closing(g, 0xc0)
    ensures !(cfg.passwordAuth && u != [])
      ==> OnPacket(cfg, g, Says(5, 0, Info(minor, es), throttled))
          == if cfg.passwordAuthRequired then Closing(g, 0xc2) else LetIn(g, false, Confirms(es))
  {
    Fields(5, 0, Info(minor, es));
    InfoReads(minor, es, before, u, p, after);
  }

  // ---------------------------------------------------------------- before the handshake

  /** On a waiting connection nothing else does anything. */
  lemma WaitingHoldsBack(cfg: Config, g: Gate, kind: byte, streamId: nat, payload: seq<byte>, throttled: bool)
    requires Waiting(g) && streamId < 0x1_0000_0000 && kind != 5 && !(kind == 4 && streamId == 0)
    ensures OnPacket(cfg, g, Says(kind, streamId, payload, throttled)) == (g, [])
  {
    Fields(kind, streamId, payload);
  }

  /** Who gets an upgrade, and with which handshake. */
  lemma UpgradeIs(cfg: Config, hasProtocol: bool)
    ensures Upgrade(cfg, hasProtocol) == None <==> (cfg.passwordAuthRequired || cfg.enableTwisp) && !(cfg.enableV2 && hasProtocol)
    ensures Upgrade(cfg, hasProtocol).Some? ==>
      var g := Upgrade(cfg, hasProtocol).value;
      (Waiting(g) <==> cfg.enableV2 && hasProtocol) && (Open(g) <==> !(cfg.enableV2 && hasProtocol)) && !g.authenticated && !g.closed
  {
  }
}

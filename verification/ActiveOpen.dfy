/**
 * Opening a connection with `connect`, on any stack and any socket: addresses, numbers, route
 * and the SYN; and what two opens in a row do to each other.
 */
module ActiveOpen {
  import opened Words
  import opened ControlBlock
  import opened StackModel
  import StackRuns
  import Identities
  import Ports

  // ------------------------------------------------------- local addresses

  /** The address that `connect` or `bind` uses: what is given, with zeros filled in. */
  ghost predicate Resolves(s: Stack, addr: Address, localIp: u32, local: Address) {
    && local.ip == (if addr.ip == 0 then localIp else addr.ip)
    && if addr.port != 0 then local.port == addr.port
       else Ports.FIRST <= local.port && (FreePort(s) ==> FindListener(s, local.port) == 0)
  }

  /** Some ephemeral port is not taken by a live listener. */
  ghost predicate FreePort(s: Stack) {
    exists p: u16 :: Ports.FIRST <= p < 65535 && FindListener(s, p) == 0
  }

  lemma BoundExactlyWhen(s: Stack, p: u16)
    requires 0 !in s.sockets
    ensures p in BoundPorts(s) <==> FindListener(s, p) != 0
  {
  }

  /** A given address is kept; an ephemeral port is one that no live listener has, if there is one. */
  lemma ResolveKeepsOrAllocates(s: Stack, addr: Address, localIp: u32)
    requires 0 !in s.sockets
    ensures var (s', local) := Resolve(s, addr, localIp);
      && Resolves(s, addr, localIp, local)
      && s' == s.(nextPort := s'.nextPort) && (addr.port != 0 ==> s' == s)
  {
    Ports.ProbeStaysInRange(BoundPorts(s), s.nextPort, Ports.PROBES);
    if p: u16 :| Ports.FIRST <= p < 65535 && FindListener(s, p) == 0 {
      Ports.ProbeIsExhaustive(BoundPorts(s), s.nextPort, p);
      BoundExactlyWhen(s, Ports.Probe(BoundPorts(s), s.nextPort, Ports.PROBES).port);
    }
  }

  // ------------------------------------------------------- one open

  /** The socket after the call: connecting, on the number drawn. */
  ghost predicate Connecting(t: Tcb, local: Address, remote: Address, iss: u32) {
    && t.state.SynSent? && t.src == local && t.dst == remote
    && t.iss == t.sndUna == iss && t.sndNxt == (iss + 1) % 0x1_0000_0000
  }

  /** The address that an existing socket is bound to, or none. */
  function Wanted(s: Stack, id: SocketId): Address {
    if Alive(s, id) then s.sockets[id].src else Address(0, 0)
  }

  /** Only socket `used` is new or changed; it is connecting, routed and queued; nothing is written. */
  ghost predicate Opens(s: Stack, s': Stack, used: SocketId, local: Address, remote: Address, iss: u32) {
    && used in s'.sockets && Connecting(s'.sockets[used], local, remote, iss)
    && s'.sockets == s.sockets[used := s'.sockets[used]]
    && s'.conns == s.conns[(remote, local) := used] && s'.listeners == s.listeners
    && FindConnection(s', remote, local) == used
    && s'.dirty == s.dirty + [used] && s'.out == s.out
  }

  /**
   * For every stack and every `id`: exactly one socket, `id` itself if it is alive and a new one
   * otherwise, starts to connect from the resolved address; the pair is routed to it and it is
   * queued. No other socket, route or listener changes, and nothing is written yet.
   */
  lemma ConnectOpens(s: Stack, id: SocketId, remote: Address, localIp: u32, iss: u32)
    requires StackRuns.Coherent(s)
    ensures Opens(s, Connect(s, id, remote, localIp, iss), if Alive(s, id) then id else s.nextId,
                  Resolve(s, Wanted(s, id), localIp).1, remote, iss)
  {
    if Alive(s, id) { ConnectBound(s, id, remote, localIp, iss); } else { ConnectNew(s, id, remote, localIp, iss); }
  }

  /** A live socket keeps its identifier, buffers and accept queue. */
  lemma ConnectBound(s: Stack, id: SocketId, remote: Address, localIp: u32, iss: u32)
    requires StackRuns.Coherent(s) && Alive(s, id)
    ensures var s', local := Connect(s, id, remote, localIp, iss), Resolve(s, s.sockets[id].src, localIp).1;
      && Opens(s, s', id, local, remote, iss) && s'.nextId == s.nextId
      && s'.sockets[id] == s.sockets[id].(
           state := SynSent, src := local, dst := remote, iss := iss, sndUna := iss, sndNxt := (iss + 1) % 0x1_0000_0000)
  {
  }

  /** A new socket has empty buffers and the next identifier. */
  lemma ConnectNew(s: Stack, id: SocketId, remote: Address, localIp: u32, iss: u32)
    requires StackRuns.Coherent(s) && !Alive(s, id)
    ensures var s', r := Connect(s, id, remote, localIp, iss), Resolve(s, Address(0, 0), localIp);
      && Opens(s, s', s.nextId, r.1, remote, iss) && s'.nextId == s.nextId + 1 && s'.nextPort == r.0.nextPort
      && s'.sockets[s.nextId].sendBuf == s'.sockets[s.nextId].recvBuf == []
  {
  }

  /** When the daemon comes to the socket, its SYN leaves for the peer. */
  lemma SynLeaves(s: Stack, id: SocketId, local: Address, remote: Address, iss: u32)
    requires Alive(s, id) && Connecting(s.sockets[id], local, remote, iss)
    ensures var s' := ProcessOne(s, id);
      && |s'.out| == |s.out| + 1 && s'.out[..|s.out|] == s.out
      && var p := s'.out[|s.out|];
      && p.src == local && p.dst == remote
      && p.seg.syn && !p.seg.ack && !p.seg.rst && !p.seg.fin && p.seg.seqNum == iss && p.seg.payload == []
      && s'.sockets == s.sockets && s'.dirty == s.dirty
  {
    var t := s.sockets[id];
    assert s.sockets[id := t] == s.sockets;
  }

  // ------------------------------------------------------- two opens

  /** An open on a new socket that leaves its address to the stack. */
  ghost predicate OpensFresh(s: Stack, s': Stack, remote: Address, localIp: u32) {
    var r := Ports.Probe(BoundPorts(s), s.nextPort, Ports.PROBES);
    && StackRuns.Coherent(s) && StackRuns.Coherent(s')
    && s'.conns == s.conns[(remote, Address(localIp, r.port)) := s.nextId]
    && s'.nextPort == r.next && s'.nextId == s.nextId + 1 && BoundPorts(s') == BoundPorts(s)
    && s.nextId in s'.sockets && s'.sockets == s.sockets[s.nextId := s'.sockets[s.nextId]]
    && s'.sockets[s.nextId].src == Address(localIp, r.port)
  }

  lemma FreshOpen(s: Stack, remote: Address, localIp: u32, iss: u32)
    requires StackRuns.Coherent(s) && Identities.RoutesIssued(s)
    ensures OpensFresh(s, Connect(s, 0, remote, localIp, iss), remote, localIp)
    ensures Identities.RoutesIssued(Connect(s, 0, remote, localIp, iss))
  {
    StackRuns.NextEvolves(s, localIp, ActConnect(0, remote, iss));
    ConnectNew(s, 0, remote, localIp, iss);
    SameListeners(s, Connect(s, 0, remote, localIp, iss));
  }

  lemma SameListeners(s: Stack, s': Stack)
    requires s'.listeners == s.listeners && s'.sockets.Keys == s.sockets.Keys + {s.nextId} && Identities.RoutesIssued(s)
    ensures BoundPorts(s') == BoundPorts(s)
  {
    assert forall port | port in s.listeners :: Alive(s', s.listeners[port]) <==> Alive(s, s.listeners[port]);
  }

  /** When two ephemeral ports in a row differ, by the counter and the live listeners. */
  ghost predicate PortsDiffer(s: Stack) {
    var bound := BoundPorts(s);
    if Ports.AllBound(bound, Ports.FIRST) then !Ports.Restart(s.nextPort)
    else Ports.TwoFree(bound) && !(Ports.AtWrap(bound, s.nextPort) && Ports.FIRST !in bound)
  }

  /**
   * Two opens to one remote address, one after the other: the first connection can still be
   * reached if and only if the two ports differ. Otherwise, which happens with free ports left
   * when the probe restarts at the wrap, the second has taken over its route.
   */
  lemma BothReachableExactlyWhen(s: Stack, remote: Address, localIp: u32, iss: u32, iss': u32)
    requires StackRuns.Coherent(s) && Identities.RoutesIssued(s)
    ensures var m := Connect(s, 0, remote, localIp, iss);
      var s' := Connect(m, 0, remote, localIp, iss');
      var first, second := s.nextId, s.nextId + 1;
      && first in s'.sockets && second in s'.sockets
      && FindConnection(s', remote, s'.sockets[second].src) == second
      && (FindConnection(s', remote, s'.sockets[first].src) == first <==> PortsDiffer(s))
  {
    var m := Connect(s, 0, remote, localIp, iss);
    FreshOpen(s, remote, localIp, iss);
    FreshOpen(m, remote, localIp, iss');
    EphemeralPortsDiffer(s, m);
    TwoRoutes(s, m, Connect(m, 0, remote, localIp, iss'), remote);
  }

  lemma EphemeralPortsDiffer(s: Stack, m: Stack)
    requires BoundPorts(m) == BoundPorts(s)
    requires m.nextPort == Ports.Probe(BoundPorts(s), s.nextPort, Ports.PROBES).next
    ensures PortsDiffer(s) <==>
      Ports.Probe(BoundPorts(m), m.nextPort, Ports.PROBES).port != Ports.Probe(BoundPorts(s), s.nextPort, Ports.PROBES).port
  {
    Ports.SuccessiveDifferExactlyWhen(BoundPorts(s), s.nextPort);
  }

  /** Two new sockets, each routed on its own address. */
  lemma TwoRoutes(s: Stack, m: Stack, s': Stack, remote: Address)
    requires StackRuns.Coherent(s) && s.nextId in m.sockets && m.nextId == s.nextId + 1 && m.nextId in s'.sockets
    requires s'.sockets == m.sockets[m.nextId := s'.sockets[m.nextId]]
    requires m.conns == s.conns[(remote, m.sockets[s.nextId].src) := s.nextId]
    requires s'.conns == m.conns[(remote, s'.sockets[m.nextId].src) := m.nextId]
    ensures s.nextId in s'.sockets && s'.sockets[s.nextId] == m.sockets[s.nextId]
    ensures FindConnection(s', remote, s'.sockets[m.nextId].src) == m.nextId
    ensures FindConnection(s', remote, s'.sockets[s.nextId].src) == s.nextId <==>
            s'.sockets[m.nextId].src != s'.sockets[s.nextId].src
  {
  }
}

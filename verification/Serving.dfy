/**
 * A server from its first call on: bind, listen, the handshake of a client, accept. On any
 * stack, whatever else it holds.
 */
module Serving {
  import opened Words
  import opened ControlBlock
  import opened StackModel
  import StackRuns
  import Identities
  import Routing
  import Accepting
  import ActiveOpen
  import OldDuplicate

  ghost predicate Ready(s: Stack) {
    StackRuns.Coherent(s) && Identities.RoutesIssued(s)
  }

  // ------------------------------------------------------- bind and listen

  /** A socket bound to `server` that nobody has connected, in the given state. */
  ghost predicate BoundTo(t: Tcb, state: State, server: Address, iss: u32) {
    && t.state == state && t.src == server && t.dst == Address(0, 0)
    && t.iss == t.sndNxt == iss
    && t.acceptQueue == [] && t.sendBuf == t.recvBuf == [] && !t.sendWoken && !t.recvWoken
  }

  /** One new socket, CLOSED, bound to the resolved address; nothing else changes. */
  lemma BindBinds(s: Stack, addr: Address, localIp: u32, iss: u32)
    requires Ready(s)
    ensures var s', server := Bind(s, addr, localIp, iss), Resolve(s, addr, localIp).1;
      && s'.sockets == s.sockets[s.nextId := s'.sockets[s.nextId]] && s'.nextId == s.nextId + 1
      && BoundTo(s'.sockets[s.nextId], Closed, server, iss)
      && s'.listeners == s.listeners[server.port := s.nextId]
      && FindListener(s', server.port) == s.nextId
      && s'.conns == s.conns && s'.dirty == s.dirty && s'.out == s.out
  {
  }

  /** A CLOSED socket starts to listen and keeps all else; a socket in another state is left alone. */
  lemma ListenListens(s: Stack, id: SocketId)
    requires StackRuns.Coherent(s)
    ensures var s' := ListenOn(s, id);
      if id in s.sockets && s.sockets[id].state == Closed
      then s' == s.(sockets := s.sockets[id := s'.sockets[id]]) && s'.sockets[id] == s.sockets[id].(state := Listen)
      else s' == s
  {
  }

  /** A listening socket on the port, and no live connection to the client. */
  ghost predicate Waits(s: Stack, id: SocketId, client: Address, server: Address) {
    && Ready(s) && FindListener(s, server.port) == id != 0
    && s.sockets[id].state == Listen
    && FindConnection(s, client, server) == 0
  }

  lemma BindAndListenWait(s: Stack, addr: Address, localIp: u32, iss: u32, client: Address)
    requires Ready(s)
    requires FindConnection(s, client, Resolve(s, addr, localIp).1) == 0
    ensures var s' := ListenOn(Bind(s, addr, localIp, iss), s.nextId);
      && Waits(s', s.nextId, client, Resolve(s, addr, localIp).1)
      && s'.sockets.Keys == s.sockets.Keys + {s.nextId} && s'.nextId == s.nextId + 1
      && s'.sockets[s.nextId].acceptQueue == []
  {
    var m := Bind(s, addr, localIp, iss);
    BindBinds(s, addr, localIp, iss);
    StackRuns.NextEvolves(s, localIp, ActBind(addr, iss));
    ListenListens(m, s.nextId);
    StackRuns.NextEvolves(m, localIp, ActListen(s.nextId));
  }

  // ------------------------------------------------------- the handshake of a client

  /** The child after the SYN: half open, with the window that the SYN offers. */
  lemma SynOpens(s: Stack, id: SocketId, client: Address, server: Address, p: Segment, iss: u32)
    requires Waits(s, id, client, server) && OldDuplicate.IsSyn(p)
    ensures var s' := Incoming(s, client, server, p, iss);
      && OldDuplicate.HalfOpen(s', s.nextId, client, server, p.seqNum, iss)
      && s'.sockets[s.nextId].sndWnd == p.window
      && s'.sockets == s.sockets[s.nextId := s'.sockets[s.nextId]] && s'.listeners == s.listeners
      && StackRuns.Coherent(s')
      && |s'.out| == |s.out| + 1 && s'.out[..|s.out|] == s.out
      && var answer := s'.out[|s.out|];
      && answer.src == server && answer.dst == client
      && answer.seg.syn && answer.seg.ack && answer.seg.seqNum == iss && answer.seg.ackNum == (p.seqNum + 1) % 0x1_0000_0000
      && answer.seg.window == CAPACITY
  {
    OldDuplicate.SynOpensChild(s, client, server, p, iss);
    var s' := Incoming(s, client, server, p, iss);
    assert s'.sockets[s.nextId] == PassiveChild(s.nextId, server, client, p, iss);
  }

  ghost predicate Established(t: Tcb, server: Address, client: Address, iss: u32, irs: u32, window: u16) {
    && t.state.Established? && t.src == server && t.dst == client
    && t.iss == iss && t.sndUna == t.sndNxt == (iss + 1) % 0x1_0000_0000 && t.sndWnd == window
    && t.irs == irs && t.rcvNxt == (irs + 1) % 0x1_0000_0000
  }

  lemma AckEstablishes(s: Stack, id: SocketId, child: SocketId, client: Address, server: Address, irs: u32, iss: u32, p: Segment, drawn: u32)
    requires StackRuns.Coherent(s) && OldDuplicate.HalfOpen(s, child, client, server, irs, iss)
    requires FindListener(s, server.port) == id != 0 && s.sockets[id].state == Listen
    requires p.ack && !p.rst && !p.syn && p.ackNum == (iss + 1) % 0x1_0000_0000
    ensures var s' := Incoming(s, client, server, p, drawn);
      && child in s'.sockets && Established(s'.sockets[child], server, client, iss, irs, p.window)
      && s'.sockets.Keys == s.sockets.Keys
      && s'.sockets[id] == s.sockets[id].(acceptQueue := s.sockets[id].acceptQueue + [child])
      && FindConnection(s', client, server) == child && s'.out == s.out
  {
    HalfOpenListens(s, id, child);
  }

  lemma HalfOpenListens(s: Stack, id: SocketId, child: SocketId)
    requires id in s.sockets && child in s.sockets
    requires s.sockets[id].state == Listen && s.sockets[child].state.SynReceived?
    ensures id != child
  {
  }

  // ------------------------------------------------------- the whole story

  /** `accept` returns the child, and nothing is left to accept. */
  ghost predicate HandsOutOnly(s: Stack, id: SocketId, child: SocketId) {
    && AcceptedChild(s, id) == child
    && id in AcceptFrom(s, id).sockets && AcceptFrom(s, id).sockets[id].acceptQueue == []
    && AcceptedChild(AcceptFrom(s, id), id) == 0
  }

  /**
   * On any coherent stack: bind to an address (its port given or allocated), listen, a SYN from
   * a client that has no live connection to it, and the ACK of the SYN-ACK. Exactly two sockets
   * are new, the bound one and one ESTABLISHED child with matching addresses and numbers, which
   * the pair is routed to; `accept` on the bound socket returns this child and leaves none.
   */
  lemma ServerAccepts(s: Stack, addr: Address, localIp: u32, bindIss: u32, client: Address,
                      syn: Segment, iss: u32, ack: Segment, drawn: u32)
    requires Ready(s)
    requires FindConnection(s, client, Resolve(s, addr, localIp).1) == 0
    requires OldDuplicate.IsSyn(syn)
    requires ack.ack && !ack.rst && !ack.syn && ack.ackNum == (iss + 1) % 0x1_0000_0000
    ensures
      var server, id := Resolve(s, addr, localIp).1, s.nextId;
      var listening := ListenOn(Bind(s, addr, localIp, bindIss), id);
      var s' := Incoming(Incoming(listening, client, server, syn, iss), client, server, ack, drawn);
      && s'.sockets.Keys == s.sockets.Keys + {id, id + 1}
      && Served(s', id, id + 1, client, server, syn.seqNum, iss, ack.window)
  {
    BindAndListenWait(s, addr, localIp, bindIss, client);
    var listening := ListenOn(Bind(s, addr, localIp, bindIss), s.nextId);
    HandshakeServes(listening, s.nextId, client, Resolve(s, addr, localIp).1, syn, iss, ack, drawn);
  }

  ghost predicate Served(s: Stack, id: SocketId, child: SocketId, client: Address, server: Address,
                         irs: u32, iss: u32, window: u16) {
    && child in s.sockets && Established(s.sockets[child], server, client, iss, irs, window)
    && FindConnection(s, client, server) == child
    && HandsOutOnly(s, id, child)
  }

  lemma HandshakeServes(s: Stack, id: SocketId, client: Address, server: Address, syn: Segment, iss: u32, ack: Segment, drawn: u32)
    requires Waits(s, id, client, server) && s.sockets[id].acceptQueue == []
    requires OldDuplicate.IsSyn(syn)
    requires ack.ack && !ack.rst && !ack.syn && ack.ackNum == (iss + 1) % 0x1_0000_0000
    ensures var s' := Incoming(Incoming(s, client, server, syn, iss), client, server, ack, drawn);
      s'.sockets.Keys == s.sockets.Keys + {s.nextId} && Served(s', id, s.nextId, client, server, syn.seqNum, iss, ack.window)
  {
    SynOpens(s, id, client, server, syn, iss);
    var m := Incoming(s, client, server, syn, iss);
    assert FindListener(m, server.port) == id;
    AckEstablishes(m, id, s.nextId, client, server, syn.seqNum, iss, ack, drawn);
    var s' := Incoming(m, client, server, ack, drawn);
    assert s'.sockets[id].acceptQueue == [] + [s.nextId];
  }

  /**
   * A child is made exactly for a SYN without ACK to a port with a live listener, when the pair
   * has no live connection (or one that is itself listening).
   */
  lemma ChildMadeExactlyWhen(s: Stack, src: Address, dst: Address, p: Segment, iss: u32)
    requires StackRuns.Coherent(s)
    ensures var routed := FindConnection(s, src, dst);
      Incoming(s, src, dst, p, iss).nextId != s.nextId <==>
        && (routed == 0 || s.sockets[routed].state.Listen?)
        && FindListener(s, dst.port) != 0 && p.syn && !p.ack
  {
    var routed := FindConnection(s, src, dst);
    if routed != 0 && !s.sockets[routed].state.Listen? && !s.sockets[routed].state.Closed? {
      StackRuns.ApplyShape(s, routed, Receive(s.sockets[routed], p), src);
    }
  }
}

/**
 * Recovery from an old duplicate SYN (Figure 9 of RFC 793), for every stale sequence number:
 * the server's half-open child is reset and replaced, and the real handshake completes.
 */
module OldDuplicate {
  import opened Words
  import opened ControlBlock
  import opened StackModel
  import opened StackRuns

  predicate IsSyn(p: Segment) {
    p.syn && !p.ack && !p.rst
  }

  /** A live listener on the server's port and no live connection to the client. */
  ghost predicate Waiting(s: Stack, client: Address, server: Address) {
    Coherent(s) && FindListener(s, server.port) != 0 && FindConnection(s, client, server) == 0
  }

  /** An active open in progress on the client, with initial sequence number `iss`. */
  ghost predicate Opening(s: Stack, client: Address, server: Address, iss: u32) {
    var id := FindConnection(s, server, client);
    && id != 0
    && var t := s.sockets[id];
    && t.state.SynSent? && t.src == client && t.dst == server
    && t.iss == iss && t.sndNxt == Wrap(iss + 1)
  }

  /** The one packet by which `s'` extends the output of `s`. */
  ghost predicate Emitted(s: Stack, s': Stack, src: Address, dst: Address, seg: Segment) {
    s'.out == s.out + [Packet(src, dst, seg)]
  }

  /** The server's child for the client: half open, numbered from `irs` and `iss`. */
  ghost predicate HalfOpen(s: Stack, id: SocketId, client: Address, server: Address, irs: u32, iss: u32) {
    && FindConnection(s, client, server) == id != 0
    && var t := s.sockets[id];
    && t.state.SynReceived? && t.src == server && t.dst == client
    && t.irs == irs && t.rcvNxt == Wrap(irs + 1) && t.iss == iss && t.sndNxt == Wrap(iss + 1)
  }

  /** A SYN to a waiting server makes exactly one new child and is answered with SYN-ACK. */
  lemma SynOpensChild(s: Stack, client: Address, server: Address, p: Segment, iss: u32)
    requires Waiting(s, client, server) && IsSyn(p)
    ensures var s' := Incoming(s, client, server, p, iss);
      && HalfOpen(s', s.nextId, client, server, p.seqNum, iss)
      && s'.nextId == s.nextId + 1 && s'.listeners == s.listeners && Coherent(s')
      && s'.sockets == s.sockets[s.nextId := s'.sockets[s.nextId]]
      && Emitted(s, s', server, client, SynAckOf(s'.sockets[s.nextId]))
  {
  }

  /** A SYN-ACK for another SYN leaves the client as it was and is answered with a reset. */
  lemma ClientRejects(s: Stack, client: Address, server: Address, iss: u32, p: Segment, drawn: u32)
    requires Opening(s, client, server, iss)
    requires p.syn && p.ack && !p.rst && p.ackNum != Wrap(iss + 1)
    ensures var s' := Incoming(s, server, client, p, drawn);
      && s'.sockets == s.sockets && s'.conns == s.conns
      && Last(s').rst && Last(s').seqNum == p.ackNum && Emitted(s, s', client, server, Last(s'))
  {
    var id := FindConnection(s, server, client);
    var r := Receive(s.sockets[id], p);
    assert r.out == [r.out[0]];
    assert s.sockets[id := r.tcb] == s.sockets;
  }

  /** A reset frees the half-open child and its route. */
  lemma ServerAborts(s: Stack, id: SocketId, client: Address, server: Address, irs: u32, iss: u32, p: Segment, drawn: u32)
    requires Coherent(s) && HalfOpen(s, id, client, server, irs, iss) && p.rst
    ensures var s' := Incoming(s, client, server, p, drawn);
      && s'.sockets == s.sockets - {id} && s'.nextId == s.nextId && s'.listeners == s.listeners
      && FindConnection(s', client, server) == 0 && Coherent(s')
  {
    var s' := Incoming(s, client, server, p, drawn);
    assert (client, server) !in s'.conns;
  }

  /** The SYN-ACK the client waits for establishes it, and it answers with an ACK. */
  lemma ClientEstablishes(s: Stack, client: Address, server: Address, iss: u32, p: Segment, drawn: u32)
    requires Opening(s, client, server, iss)
    requires p.syn && p.ack && !p.rst && p.ackNum == Wrap(iss + 1)
    ensures var s' := Incoming(s, server, client, p, drawn);
      var id := FindConnection(s, server, client);
      && id in s'.sockets
      && var t := s'.sockets[id];
      && t.state.Established? && t.irs == p.seqNum && t.rcvNxt == Wrap(p.seqNum + 1)
      && t.sndUna == t.sndNxt == Wrap(iss + 1)
      && Emitted(s, s', client, server, AckOf(t))
  {
    var id := FindConnection(s, server, client);
    var r := Receive(s.sockets[id], p);
    assert r.out == [r.out[0]];
  }

  /** The ACK establishes the child and puts it into the listener's accept queue. */
  lemma ServerEstablishes(s: Stack, id: SocketId, client: Address, server: Address, irs: u32, iss: u32, p: Segment, drawn: u32)
    requires Coherent(s) && HalfOpen(s, id, client, server, irs, iss)
    requires p.ack && !p.rst && !p.syn && p.ackNum == Wrap(iss + 1)
    requires FindListener(s, server.port) != 0 && FindListener(s, server.port) != id
    ensures var s' := Incoming(s, client, server, p, drawn);
      var l := FindListener(s, server.port);
      && s'.sockets.Keys == s.sockets.Keys && s'.conns == s.conns
      && s'.sockets[l].acceptQueue == s.sockets[l].acceptQueue + [id]
      && var t := s'.sockets[id];
      && t.state.Established? && t.irs == irs && t.rcvNxt == Wrap(irs + 1)
      && t.iss == iss && t.sndUna == t.sndNxt == Wrap(iss + 1)
  {
  }

  /** The newest packet written; a pure reset stands in when there is none. */
  function Last(s: Stack): Segment {
    if s.out == [] then Segment(0, 0, false, false, true, false, 0, []) else s.out[|s.out| - 1].seg
  }

  datatype Outcome = Outcome(server: Stack, client: Stack)

  /**
   * The whole exchange: the stale SYN, its SYN-ACK, the client's reaction, the real SYN, its
   * SYN-ACK and the client's answer, each delivered to the other stack. `oldIss` and `newIss`
   * are the numbers the server draws.
   */
  function Exchange(server0: Stack, client0: Stack, client: Address, server: Address,
                    stale: Segment, actual: Segment, oldIss: u32, newIss: u32): Outcome
  {
    var server1 := Incoming(server0, client, server, stale, oldIss);
    var client1 := Incoming(client0, server, client, Last(server1), 0);
    var server2 := Incoming(server1, client, server, Last(client1), 0);
    var server3 := Incoming(server2, client, server, actual, newIss);
    var client2 := Incoming(client1, server, client, Last(server3), 0);
    Outcome(Incoming(server3, client, server, Last(client2), 0), client2)
  }

  /** ESTABLISHED with this side's and the peer's initial sequence numbers in place. */
  ghost predicate Synchronised(s: Stack, id: SocketId, iss: u32, irs: u32) {
    && id in s.sockets
    && var t := s.sockets[id];
    && t.state.Established? && t.irs == irs && t.rcvNxt == Wrap(irs + 1)
    && t.sndUna == t.sndNxt == Wrap(iss + 1)
  }

  ghost predicate AcceptGains(s: Stack, s': Stack, listener: SocketId, id: SocketId) {
    && listener in s.sockets && listener in s'.sockets
    && s'.sockets[listener].acceptQueue == s.sockets[listener].acceptQueue + [id]
  }

  /**
   * At the end the server has exactly one socket more than before, the route leads to it, the
   * half-open child of the stale SYN is gone, the new child waits to be accepted, and both
   * ends are ESTABLISHED and agree on all sequence numbers.
   */
  lemma OldDuplicateRecovers(server0: Stack, client0: Stack, client: Address, server: Address,
                             iss: u32, stale: Segment, actual: Segment, oldIss: u32, newIss: u32)
    requires Waiting(server0, client, server) && Opening(client0, client, server, iss)
    requires IsSyn(stale) && stale.seqNum != iss
    requires IsSyn(actual) && actual.seqNum == iss
    ensures
      var end := Exchange(server0, client0, client, server, stale, actual, oldIss, newIss);
      var oldChild, child := server0.nextId, server0.nextId + 1;
      && end.server.sockets.Keys == server0.sockets.Keys + {child} && oldChild !in end.server.sockets
      && FindConnection(end.server, client, server) == child
      && Synchronised(end.server, child, newIss, iss)
      && Synchronised(end.client, FindConnection(client0, server, client), iss, newIss)
      && AcceptGains(server0, end.server, FindListener(server0, server.port), child)
  {
    var server1 := Incoming(server0, client, server, stale, oldIss);
    SynOpensChild(server0, client, server, stale, oldIss);
    StaleNumberDiffers(stale.seqNum, iss);
    ClientRejects(client0, client, server, iss, Last(server1), 0);
    var client1 := Incoming(client0, server, client, Last(server1), 0);
    ServerAborts(server1, server0.nextId, client, server, stale.seqNum, oldIss, Last(client1), 0);
    var server2 := Incoming(server1, client, server, Last(client1), 0);
    assert server2.sockets == server0.sockets;
    RealHandshake(server2, client1, client, server, iss, actual, newIss);
  }

  /** The second half: from a waiting server the real SYN is answered and accepted. */
  lemma RealHandshake(server2: Stack, client1: Stack, client: Address, server: Address, iss: u32, actual: Segment, newIss: u32)
    requires Waiting(server2, client, server) && Opening(client1, client, server, iss)
    requires IsSyn(actual) && actual.seqNum == iss
    ensures
      var server3 := Incoming(server2, client, server, actual, newIss);
      var client2 := Incoming(client1, server, client, Last(server3), 0);
      var server4 := Incoming(server3, client, server, Last(client2), 0);
      var child := server2.nextId;
      && server4.sockets.Keys == server2.sockets.Keys + {child}
      && FindConnection(server4, client, server) == child
      && Synchronised(server4, child, newIss, iss)
      && Synchronised(client2, FindConnection(client1, server, client), iss, newIss)
      && AcceptGains(server2, server4, FindListener(server2, server.port), child)
  {
    SynOpensChild(server2, client, server, actual, newIss);
    var server3 := Incoming(server2, client, server, actual, newIss);
    ClientEstablishes(client1, client, server, iss, Last(server3), 0);
    var client2 := Incoming(client1, server, client, Last(server3), 0);
    ServerEstablishes(server3, server2.nextId, client, server, iss, newIss, Last(client2), 0);
  }

  lemma StaleNumberDiffers(a: u32, b: u32)
    requires a != b
    ensures Wrap(a + 1) != Wrap(b + 1)
  {
  }
}

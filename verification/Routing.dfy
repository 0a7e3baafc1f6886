/** How a segment for an existing connection reaches its control block, and what teardown frees. */
module Routing {
  import opened Words
  import opened ControlBlock
  import opened StackModel
  import Lifecycle

  /** Socket `id` serves the connection between `local` and `remote` under its own route. */
  ghost predicate Serves(s: Stack, id: SocketId, local: Address, remote: Address) {
    && FindConnection(s, remote, local) == id != 0
    && s.sockets[id].src == local && s.sockets[id].dst == remote && local != remote
  }

  /**
   * On a stack that does not also hold the other end, delivering a segment is the handler's
   * step on that one block: no other socket changes, no route is lost, and what the handler
   * wrote goes out towards the peer. Not even the final teardown removes the entry. The two
   * states whose handlers concern other sockets as well, LISTEN and SYN_RECEIVED, are excluded.
   */
  lemma DeliveryIsHandlerStep(s: Stack, id: SocketId, local: Address, remote: Address, p: Segment, iss: u32)
    requires Serves(s, id, local, remote) && (local, remote) !in s.conns
    requires !s.sockets[id].state.Listen? && !s.sockets[id].state.SynReceived?
    ensures var r, s' := Receive(s.sockets[id], p), Incoming(s, remote, local, p, iss);
      && s'.sockets == s.sockets[id := r.tcb] && s'.conns == s.conns
      && s'.out == s.out + Addressed(r.out, local, remote)
      && s'.dirty == s.dirty + (if r.dirty then [id] else [])
      && s'.listeners == s.listeners && s'.nextId == s.nextId
      && Serves(s', id, local, remote)
  {
    var t := s.sockets[id];
    Lifecycle.ReceiveSteady(t, p);
    if t.state.Closed? {
      assert s.sockets[id := t] == s.sockets;
    }
    NeverAborts(t, p);
  }

  lemma NeverAborts(t: Tcb, p: Segment)
    requires !t.state.SynReceived?
    ensures !Receive(t, p).effect.AbortSocket?
    ensures t.state.Closed? ==> !Receive(t, p).dirty
  {
  }

  /**
   * A segment for a pair without a live connection, other than a SYN without ACK to a port with
   * a live listener, and any segment for a CLOSED socket: the reset that it calls for goes back
   * to where it came from, and nothing else happens.
   */
  lemma RefusalGoesBack(s: Stack, src: Address, dst: Address, p: Segment, iss: u32)
    requires var id := FindConnection(s, src, dst);
      if id == 0 then !(FindListener(s, dst.port) != 0 && p.syn && !p.ack) else s.sockets[id].state.Closed?
    ensures var s' := Incoming(s, src, dst, p, iss);
      && s' == s.(out := s'.out)
      && (p.rst ==> s'.out == s.out)
      && (!p.rst ==> ClosedReset(p) != [] && s'.out == s.out + [Packet(dst, src, ClosedReset(p)[0])])
  {
  }

  /**
   * A close from ESTABLISHED or CLOSE_WAIT: the FIN is the last thing written, from the
   * socket's own address to its peer; the socket stays, and so does every route.
   */
  lemma CloseSendsFin(s: Stack, id: SocketId)
    requires Alive(s, id) && Unclosed(s.sockets[id].state)
    ensures var t, s' := s.sockets[id], CloseOf(s, id);
      && s'.sockets == s.sockets[id := CloseConnection(t).tcb] && s'.conns == s.conns && s'.listeners == s.listeners
      && s'.sockets[id].state == (if t.state.Established? then FinWait1 else LastAck)
      && s'.out == s.out + Addressed(CloseConnection(t).out, t.src, t.dst)
      && |s'.out| > |s.out|
      && var last := s'.out[|s'.out| - 1];
      && last.src == t.src && last.dst == t.dst && last.seg.fin && last.seg.ack && !last.seg.syn && !last.seg.rst
      && last.seg.ackNum == t.rcvNxt && s'.sockets[id].sndNxt == (last.seg.seqNum + 1) % 0x1_0000_0000
  {
    Lifecycle.SendingSteady(s.sockets[id]);
    FinIsLast(s.sockets[id]);
  }

  lemma FinIsLast(t: Tcb)
    requires Unclosed(t.state)
    ensures var r := CloseConnection(t);
      && r.effect.Keep? && r.out != []
      && r.tcb.state == (if t.state.Established? then FinWait1 else LastAck)
      && var fin := r.out[|r.out| - 1];
      && fin.fin && fin.ack && !fin.syn && !fin.rst && fin.ackNum == t.rcvNxt
      && r.tcb.sndNxt == (fin.seqNum + 1) % 0x1_0000_0000
  {
  }

  /**
   * `destroy_connection` takes (remote, local) and is called with (local, remote). So the step
   * that closes a connection always leaves its own route, and the one socket it frees, if
   * any, is the one that the opposite route leads to.
   */
  lemma TeardownFreesOppositeRoute(s: Stack, id: SocketId, local: Address, remote: Address, p: Segment, iss: u32)
    requires Serves(s, id, local, remote) && 0 !in s.sockets
    requires Receive(s.sockets[id], p).effect.DestroyConnection?
    ensures var s' := Incoming(s, remote, local, p, iss);
      && (remote, local) in s'.conns && s'.conns[(remote, local)] == id
      && s'.sockets.Keys == s.sockets.Keys - (if (local, remote) in s.conns then {s.conns[(local, remote)]} else {})
      && (id in s'.sockets ==> s'.sockets[id].state.Closed?)
      && (id !in s'.sockets <==> (local, remote) in s.conns && s.conns[(local, remote)] == id)
  {
    var t := s.sockets[id];
    Lifecycle.ReceiveSteady(t, p);
    OnlyClosingDestroys(t, p);
  }

  /**
   * The same for a close in one of the states that send no FIN, whatever route leads to the
   * socket: its own route stays, and what is freed is what the opposite route leads to.
   */
  lemma CloseFreesOppositeRoute(s: Stack, id: SocketId)
    requires Alive(s, id) && 0 !in s.sockets && !Unclosed(s.sockets[id].state)
    ensures var t, s' := s.sockets[id], CloseOf(s, id);
      var opposite := (t.src, t.dst);
      && s'.conns == s.conns - {opposite} && s'.out == s.out
      && s'.sockets.Keys == s.sockets.Keys - (if opposite in s.conns then {s.conns[opposite]} else {})
      && (id in s'.sockets ==> s'.sockets[id].state.LastAck?)
      && (id !in s'.sockets <==> opposite in s.conns && s.conns[opposite] == id)
  {
    Lifecycle.SendingSteady(s.sockets[id]);
  }

  lemma OnlyClosingDestroys(t: Tcb, p: Segment)
    requires Receive(t, p).effect.DestroyConnection?
    ensures Receive(t, p).tcb.state.Closed? && !Receive(t, p).dirty
    ensures !t.state.Closed? && !t.state.Listen?
  {
  }
}

/**
 * The handshake without loss, played through the handlers: it leaves both ends in exactly the
 * state from which the stream theorems start.
 */
module Opening {
  import opened Words
  import opened ControlBlock
  import Stream

  predicate Unused(t: Tcb) {
    t.sendBuf == [] && t.recvBuf == []
  }

  function Pair(a: Tcb, b: Tcb): Stream.System {
    Stream.System(Stream.Node(a, [], []), Stream.Node(b, [], []), [], [])
  }

  /** SYN, SYN-ACK, ACK (Figure 7 of RFC 793). */
  lemma ThreeWayHandshakeSynchronises(blank: Tcb, issA: u32, issB: u32, id: SocketId, local: Address, remote: Address)
    requires Unused(blank)
    ensures
      var a0 := StartConnect(blank, issA);
      var syn := ProcessBlock(a0).out;
      |syn| == 1 &&
      var child := PassiveChild(id, local, remote, syn[0], issB);
      var a := Receive(a0, SynAckOf(child));
      |a.out| == 1 &&
      var b := Receive(child, a.out[0]);
      && b.out == [] && b.effect.EnqueueAccept? && Stream.Synchronised(Pair(a.tcb, b.tcb))
      && a.tcb.sndWnd == CAPACITY - |b.tcb.recvBuf| && b.tcb.sndWnd == CAPACITY - |a.tcb.recvBuf|
  {
  }

  /** Both ends open actively (Figure 8 of RFC 793); the last two ACKs change nothing. */
  lemma SimultaneousOpenSynchronises(blankA: Tcb, blankB: Tcb, issA: u32, issB: u32)
    requires Unused(blankA) && Unused(blankB)
    ensures
      var a0, b0 := StartConnect(blankA, issA), StartConnect(blankB, issB);
      var a1 := Receive(a0, ProcessBlock(b0).out[0]);
      var b1 := Receive(b0, ProcessBlock(a0).out[0]);
      |a1.out| == |b1.out| == 1 &&
      var a2 := Receive(a1.tcb, b1.out[0]);
      var b2 := Receive(b1.tcb, a1.out[0]);
      |a2.out| == |b2.out| == 1 &&
      var a3 := Receive(a2.tcb, b2.out[0]);
      var b3 := Receive(b2.tcb, a2.out[0]);
      && a3.out == b3.out == []
      && a3.tcb == a2.tcb && b3.tcb == b2.tcb
      && Stream.Synchronised(Pair(a3.tcb, b3.tcb))
  {
    var a0, b0 := StartConnect(blankA, issA), StartConnect(blankB, issB);
    Crossing(a0, b0);
    Crossing(b0, a0);
  }

  /** One side of the simultaneous open. */
  lemma Crossing(x: Tcb, y: Tcb)
    requires Unused(x) && Unused(y)
    requires x == StartConnect(x, x.iss) && y == StartConnect(y, y.iss)
    ensures
      var x1 := Receive(x, ProcessBlock(y).out[0]);
      var y1 := Receive(y, ProcessBlock(x).out[0]);
      && |y1.out| == 1
      && var x2 := Receive(x1.tcb, y1.out[0]);
      && |x2.out| == 1
      && x2.tcb.state.Established?
      && x2.tcb.sndUna == x2.tcb.sndNxt == Wrap(x.iss + 1) == x2.out[0].seqNum
      && x2.tcb.rcvNxt == Wrap(y.iss + 1) == x2.out[0].ackNum
      && x2.tcb.iss == x.iss && x2.tcb.sndWnd == 65535 && Unused(x2.tcb)
      && Stream.Plain(x2.out[0]) && x2.out[0].payload == [] && x2.out[0].window == 65535
  {
  }
}

/**
 * One connection from open to close: the handshake leads into the stream system, a stream
 * system that has come to rest is a quiescent pair, and closing that pair completes.
 */
module WholeLife {
  import opened Words
  import opened ControlBlock
  import opened Sender
  import Stream
  import Teardown
  import Opening

  /** Nothing on the wire and every written byte acknowledged. */
  predicate AtRest(s: Stream.System) {
    s.ab == [] && s.ba == [] && s.a.tcb.sendBuf == [] && s.b.tcb.sendBuf == []
  }

  function Closing(s: Stream.System): Teardown.System {
    Teardown.System(s.a.tcb, s.b.tcb, s.ab, s.ba)
  }

  lemma RestIsAgreement(x: Stream.Node, y: Stream.Node)
    requires Stream.Flow(x, y, [], []) && x.tcb.sendBuf == []
    ensures x.tcb.sndUna == x.tcb.sndNxt == y.tcb.rcvNxt
    ensures y.read + y.tcb.recvBuf == x.wrote
  {
    InFlightIsTrue(x.tcb, Stream.AsIdeal(x));
    assert Stream.Sent(x) == Stream.Acked(x) == |x.wrote|;
    assert y.read + y.tcb.recvBuf + [] == y.read + y.tcb.recvBuf;
    assert x.wrote[..|x.wrote|] == x.wrote;
    assert Stream.Arrived(y) == |y.read + y.tcb.recvBuf|;
  }

  lemma RestIsQuiescent(s: Stream.System)
    requires Stream.Inv(s) && AtRest(s)
    ensures Teardown.Quiescent(Closing(s))
  {
    RestIsAgreement(s.a, s.b);
    RestIsAgreement(s.b, s.a);
  }

  /**
   * For all initial sequence numbers, every interleaving of the data phase and every
   * interleaving of the closing phase: if the data phase has come to rest, all bytes have
   * arrived in order, and closing it takes at most six effective steps and ends, when nothing
   * is left to do and not before, with both ends CLOSED.
   */
  lemma ConnectionLives(blank: Tcb, issA: u32, issB: u32, local: Address, remote: Address,
                        data: seq<(Stream.Side, Stream.Action)>, closing: seq<(Teardown.Side, Teardown.Action)>)
    requires Opening.Unused(blank)
    ensures
      var a0 := StartConnect(blank, issA);
      var child := PassiveChild(1, local, remote, Control(a0, true, false, false, false, issA, 0), issB);
      var a1 := Receive(a0, SynAckOf(child)).tcb;
      var b1 := Receive(child, AckOf(a1)).tcb;
      var s := Stream.Run(Opening.Pair(a1, b1), data);
      AtRest(s) ==>
        && s.b.read + s.b.tcb.recvBuf == s.a.wrote && s.a.read + s.a.tcb.recvBuf == s.b.wrote
        && Teardown.EffectiveSteps(Closing(s), closing) <= 6
        && var end := Teardown.Run(Closing(s), closing);
        && (Teardown.Finished(end) <==> end.a.state.Closed? && end.b.state.Closed?)
  {
    var a0 := StartConnect(blank, issA);
    Opening.ThreeWayHandshakeSynchronises(blank, issA, issB, 1, local, remote);
    var child := PassiveChild(1, local, remote, Control(a0, true, false, false, false, issA, 0), issB);
    var a1 := Receive(a0, SynAckOf(child)).tcb;
    var b1 := Receive(child, AckOf(a1)).tcb;
    var s0 := Opening.Pair(a1, b1);
    Stream.SynchronisedImpliesFlow(s0.a, s0.b);
    Stream.SynchronisedImpliesFlow(s0.b, s0.a);
    Stream.RunKeepsInv(s0, data);
    var s := Stream.Run(s0, data);
    if AtRest(s) {
      RestIsAgreement(s.a, s.b);
      RestIsAgreement(s.b, s.a);
      RestIsQuiescent(s);
      Teardown.TeardownCompletes(Closing(s), closing);
    }
  }
}

/** Resets: who answers with one, who accepts one, and that they never answer each other. */
module Resets {
  import opened Words
  import opened ControlBlock

  /** A reset is never answered, so a closed end never starts an exchange of resets. */
  lemma ResetsEndTheExchange(p: Segment)
    ensures |ClosedReset(p)| <= 1
    ensures forall r | r in ClosedReset(p) :: r.rst && !r.syn && ClosedReset(r) == []
    ensures ClosedReset(p) == [] <==> p.rst
  {
  }

  /** The sequence space that a segment occupies (SEG.LEN in section 3.3 of RFC 793). */
  function Occupied(p: Segment): nat {
    |p.payload| + (if p.syn then 1 else 0) + (if p.fin then 1 else 0)
  }

  /**
   * The numbers of a reset. The sender of a segment with ACK gets its own ACK number back as
   * sequence number. Otherwise the reset acknowledges what the segment occupied, if and only if
   * that is not a FIN: the program leaves a FIN out of the count, where section 3.4 of RFC 793
   * includes it.
   */
  lemma ResetNumbers(p: Segment)
    requires !p.rst
    ensures var out := ClosedReset(p);
      && |out| == 1 && out[0].rst && !out[0].syn && !out[0].fin && out[0].payload == [] && out[0].window == 0
      && (p.ack ==> !out[0].ack && out[0].seqNum == p.ackNum)
      && (!p.ack ==> out[0].ack && out[0].seqNum == 0)
      && (!p.ack ==> (out[0].ackNum == (p.seqNum + Occupied(p)) % 0x1_0000_0000 <==> !p.fin))
  {
    if !p.ack && p.fin {
      var n := p.seqNum + |p.payload| + (if p.syn then 1 else 0);
      if Wrap(n) == Wrap(n + 1) { WrapInjective(n, n + 1); }
    }
  }

  /** The SYN of an active open that meets a closed port brings back a reset that closes it. */
  lemma RefusedConnectCloses(blank: Tcb, iss: u32)
    ensures
      var t := StartConnect(blank, iss);
      var syn := ProcessBlock(t).out;
      |syn| == 1 && |ClosedReset(syn[0])| == 1 &&
      var r := Receive(t, ClosedReset(syn[0])[0]);
      r.tcb.state.Closed? && r.out == [] && r.tcb == t.(state := Closed)
  {
  }

  /**
   * The reset with which a SYN_SENT end rejects a foreign SYN-ACK is the one a half-open peer
   * gets for a segment that acknowledges what it never sent: it carries that number and no
   * ACK, it aborts the peer in SYN_RECEIVED, and a SYN_SENT peer would ignore it.
   */
  lemma RejectionAbortsHalfOpen(t: Tcb, peer: Tcb, p: Segment)
    requires t.state.SynSent? && p.ack && !p.rst && p.ackNum != t.sndNxt
    ensures
      var out := Receive(t, p).out;
      && Receive(t, p).tcb == t
      && |out| == 1 && out[0].seqNum == p.ackNum && out[0].rst
      && (peer.state.SynReceived? ==> Receive(peer, out[0]).tcb.state.Closed? && Receive(peer, out[0]).effect.AbortSocket?)
      && (peer.state.SynSent? ==> Receive(peer, out[0]) == Stay(peer))
  {
  }

  /**
   * Which states look at the reset bit at all: CLOSED, SYN_SENT and SYN_RECEIVED. In every other
   * state a segment is handled as if the bit were not set (section 3.4 of RFC 793 would close).
   */
  lemma ResetIgnoredExactlyWhen(t: Tcb)
    ensures (forall p :: Receive(t, p) == Receive(t, p.(rst := !p.rst))) <==>
            !t.state.Closed? && !t.state.SynSent? && !t.state.SynReceived?
  {
    if t.state.Closed? || t.state.SynSent? || t.state.SynReceived? {
      ResetNoticed(t);
    } else {
      forall p ensures Receive(t, p) == Receive(t, p.(rst := !p.rst)) {
        ResetUnnoticed(t, p);
      }
    }
  }

  lemma ResetNoticed(t: Tcb)
    requires t.state.Closed? || t.state.SynSent? || t.state.SynReceived?
    ensures var p := Segment(0, t.sndNxt, false, true, true, false, 0, []);
      Receive(t, p) != Receive(t, p.(rst := !p.rst))
  {
  }

  lemma ResetUnnoticed(t: Tcb, p: Segment)
    requires !t.state.Closed? && !t.state.SynSent? && !t.state.SynReceived?
    ensures Receive(t, p) == Receive(t, p.(rst := !p.rst))
  {
    if t.state.Established? && !p.fin {
      assert AcceptAck(t, p) == AcceptAck(t, p.(rst := !p.rst));
    }
  }

  /**
   * Which live block a reset without FIN closes: one in SYN_SENT whose SYN it acknowledges, any
   * in SYN_RECEIVED, and one in CLOSING or LAST_ACK whose FIN it acknowledges.
   */
  lemma ResetClosesExactlyWhen(t: Tcb, p: Segment)
    requires p.rst && !p.fin && !t.state.Closed?
    ensures Receive(t, p).tcb.state.Closed? <==>
            t.state.SynReceived? ||
            ((t.state.SynSent? || t.state.Closing? || t.state.LastAck?) && p.ack && p.ackNum == t.sndNxt)
    ensures t.state.SynSent? ==> Receive(t, p).out == []
    ensures t.state.Established? ==> Receive(t, p).tcb.state.Established?
  {
  }
}

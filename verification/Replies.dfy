/**
 * Every handler at once: which state a segment leads to, how it is answered, what it does to
 * the window and what it asks of the tables. Each statement is over all states and segments.
 */
module Replies {
  import opened Words
  import opened ControlBlock
  import Stream

  /** The segment acknowledges all that this side has sent, SYN or FIN included. */
  predicate AcksAll(t: Tcb, p: Segment) {
    p.ack && p.ackNum == t.sndNxt
  }

  /** Where each state is entered from or kept (Figure 6 of RFC 793, as far as the program goes). */
  ghost predicate Diagram(t: Tcb, p: Segment, s': State) {
    var s := t.state;
    && (s'.SynSent? <==> s.SynSent? && (if p.rst then !AcksAll(t, p) else !p.syn || (p.ack && !AcksAll(t, p))))
    && (s'.SynReceived? <==>
          || (s.SynSent? && p.syn && !p.ack && !p.rst)
          || (s.SynReceived? && !p.rst && !AcksAll(t, p)))
    && (s'.Established? <==>
          || (s.SynSent? && p.syn && !p.rst && AcksAll(t, p))
          || (s.SynReceived? && !p.rst && AcksAll(t, p))
          || (s.Established? && !p.fin))
    && (s'.CloseWait? <==> (s.Established? && p.fin) || s.CloseWait?)
    && (s'.FinWait1? <==> s.FinWait1? && !p.fin && !AcksAll(t, p))
    && (s'.FinWait2? <==> (s.FinWait1? && !p.fin && AcksAll(t, p)) || (s.FinWait2? && !p.fin))
    && (s'.Closing? <==> (s.FinWait1? && p.fin && !AcksAll(t, p)) || (s.Closing? && !AcksAll(t, p)))
    && (s'.LastAck? <==> s.LastAck? && !AcksAll(t, p))
    && (s'.Listen? <==> s.Listen?) && (s'.TimeWait? <==> s.TimeWait?)
  }

  /** The state after any segment; what is none of these is CLOSED. */
  lemma StateExactlyWhen(t: Tcb, p: Segment)
    ensures Diagram(t, p, Receive(t, p).tcb.state)
  {
    if t.state.Established? { EstablishedStays(t, p); }
    else if t.state.SynSent? || t.state.SynReceived? { HandshakeStates(t, p); }
    else { LaterStates(t, p); }
  }

  lemma EstablishedStays(t: Tcb, p: Segment)
    requires t.state.Established?
    ensures Receive(t, p).tcb.state == if p.fin then CloseWait else Established
  {
    if !p.fin { Stream.AckKeepsReceiveSide(t, p); }
  }

  lemma HandshakeStates(t: Tcb, p: Segment)
    requires t.state.SynSent? || t.state.SynReceived?
    ensures Diagram(t, p, Receive(t, p).tcb.state)
  {
  }

  lemma LaterStates(t: Tcb, p: Segment)
    requires !t.state.Established? && !t.state.SynSent? && !t.state.SynReceived?
    ensures Diagram(t, p, Receive(t, p).tcb.state)
  {
  }

  /** An answer that is not a reset: a SYN-ACK or a pure ACK, with the numbers and window of the moment. */
  ghost predicate Current(q: Segment, t: Tcb) {
    && q.ack && !q.fin && q.payload == []
    && q.ackNum == t.rcvNxt && q.seqNum == (if q.syn then t.iss else t.sndNxt)
    && q.window == CAPACITY - |t.recvBuf|
  }

  ghost predicate AnsweredCurrently(r: Step) {
    |r.out| <= 1 && forall q | q in r.out && !q.rst :: Current(q, r.tcb)
  }

  lemma AnswersAreCurrent(t: Tcb, p: Segment)
    ensures AnsweredCurrently(Receive(t, p))
  {
    if t.state.Established? { EstablishedAnswers(t, p); }
    else if t.state.SynSent? || t.state.SynReceived? { HandshakeAnswers(t, p); }
    else { LaterAnswers(t, p); }
  }

  lemma EstablishedAnswers(t: Tcb, p: Segment)
    requires t.state.Established?
    ensures AnsweredCurrently(Receive(t, p))
  {
  }

  lemma HandshakeAnswers(t: Tcb, p: Segment)
    requires t.state.SynSent? || t.state.SynReceived?
    ensures AnsweredCurrently(Receive(t, p))
  {
  }

  lemma LaterAnswers(t: Tcb, p: Segment)
    requires !t.state.Established? && !t.state.SynSent? && !t.state.SynReceived?
    ensures AnsweredCurrently(Receive(t, p))
  {
  }

  /**
   * Which FINs are answered after the handshake: those in ESTABLISHED, FIN_WAIT_1 and
   * FIN_WAIT_2, whatever they acknowledge. The one answer acknowledges the FIN itself, by the
   * number after it, and RCV.NXT stands there; in all other states nothing is said and RCV.NXT
   * stays.
   */
  lemma FinAnsweredExactlyWhen(t: Tcb, p: Segment)
    requires p.fin && !t.state.Closed? && !t.state.SynSent? && !t.state.SynReceived?
    ensures var r, next := Receive(t, p), (p.seqNum + 1) % 0x1_0000_0000;
      if t.state.Established? || t.state.FinWait1? || t.state.FinWait2?
      then && |r.out| == 1 && !r.out[0].rst && !r.out[0].syn && Current(r.out[0], r.tcb)
           && r.out[0].ackNum == r.tcb.rcvNxt == next
      else r.out == [] && r.tcb.rcvNxt == t.rcvNxt
  {
  }

  /** The segment is one whose window counts: it completes a handshake step or is a live ACK. */
  predicate Informs(t: Tcb, p: Segment) {
    match t.state
    case SynSent => p.syn && !p.rst && (p.ack ==> AcksAll(t, p))
    case SynReceived => !p.rst && AcksAll(t, p)
    case Established => p.ack
    case _ => false
  }

  /** SND.WND is what the last such segment offered. */
  lemma WindowFollowsPeer(t: Tcb, p: Segment)
    ensures Receive(t, p).tcb.sndWnd == if Informs(t, p) then p.window else t.sndWnd
  {
    if t.state.Established? { EstablishedWindow(t, p); } else { OtherWindows(t, p); }
  }

  lemma EstablishedWindow(t: Tcb, p: Segment)
    requires t.state.Established?
    ensures Receive(t, p).tcb.sndWnd == if p.ack then p.window else t.sndWnd
  {
  }

  lemma OtherWindows(t: Tcb, p: Segment)
    requires !t.state.Established?
    ensures Receive(t, p).tcb.sndWnd == if Informs(t, p) then p.window else t.sndWnd
  {
  }

  predicate Closes(s: State) {
    s.FinWait1? || s.FinWait2? || s.Closing? || s.LastAck?
  }

  /** What is asked of the tables: at the end of a teardown, on an abort, on a completed handshake. */
  ghost predicate AsksRightly(t: Tcb, p: Segment, r: Step) {
    && (r.effect.DestroyConnection? <==> r.tcb.state.Closed? && Closes(t.state))
    && (r.effect.AbortSocket? <==> t.state.SynReceived? && p.rst)
    && (r.effect.EnqueueAccept? <==> t.state.SynReceived? && r.tcb.state.Established?)
  }

  lemma EffectExactlyWhen(t: Tcb, p: Segment)
    ensures AsksRightly(t, p, Receive(t, p))
  {
    if t.state.Established? {
      EstablishedAsksNothing(t, p);
    } else {
      OthersAsk(t, p);
    }
  }

  lemma EstablishedAsksNothing(t: Tcb, p: Segment)
    requires t.state.Established?
    ensures Receive(t, p).effect.Keep?
  {
  }

  lemma OthersAsk(t: Tcb, p: Segment)
    requires !t.state.Established?
    ensures AsksRightly(t, p, Receive(t, p))
  {
  }

  /**
   * What a turn of the daemon writes: in SYN_SENT the SYN, once each turn; in ESTABLISHED,
   * CLOSE_WAIT, FIN_WAIT_1 and LAST_ACK one data segment if there is anything to send; nothing
   * else.
   */
  lemma TurnWritesExactly(t: Tcb)
    ensures var out := ProcessBlock(t).out;
      if t.state.SynSent? then
        && |out| == 1 && out[0].syn && !out[0].ack && !out[0].rst && !out[0].fin
        && out[0].seqNum == t.iss && out[0].window == CAPACITY - |t.recvBuf| && out[0].payload == []
        && ProcessBlock(t).tcb == t
      else if (t.state.Established? || t.state.CloseWait? || t.state.FinWait1? || t.state.LastAck?) && WantsToSend(t) then
        |out| == 1 && out[0].payload != [] && out[0].ack && !out[0].syn && !out[0].rst && !out[0].fin
      else out == [] && ProcessBlock(t).tcb == t
  {
  }
}

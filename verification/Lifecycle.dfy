/** What every handler of one control block keeps: the order of states and the wake-up rule. */
module Lifecycle {
  import opened Words
  import opened ControlBlock

  /** States of a connection only move to a higher rank. */
  function Rank(s: State): nat {
    match s
    case Listen => 0
    case SynSent => 1
    case SynReceived => 2
    case Established => 3
    case FinWait1 => 4
    case CloseWait => 4
    case FinWait2 => 5
    case Closing => 5
    case LastAck => 5
    case Closed => 6
    case TimeWait => 7
  }

  ghost predicate Rises(t: Tcb, t': Tcb) {
    t'.state != t.state ==> Rank(t.state) < Rank(t'.state) && !t'.state.TimeWait?
  }

  /** ESTABLISHED, with unsent bytes and an open window. */
  ghost predicate HasWork(t: Tcb) {
    t.state.Established? && WantsToSend(t)
  }

  /** CLOSE_WAIT, with unsent bytes and an open window. */
  ghost predicate HasClosingWork(t: Tcb) {
    t.state.CloseWait? && WantsToSend(t)
  }

  /** No application data before the handshake is over. */
  ghost predicate Quiet(t: Tcb) {
    t.state.SynSent? || t.state.SynReceived? ==> t.sendBuf == []
  }

  /** The same block: identifier kept, TIME_WAIT not entered. */
  ghost predicate Link(t: Tcb, t': Tcb) {
    t'.id == t.id && (t'.state.TimeWait? ==> t.state.TimeWait?)
  }

  /**
   * Work that a step leaves behind is queued or was there before; in CLOSE_WAIT, unless the
   * step is the one that enters it.
   */
  ghost predicate Wakes(t: Tcb, t': Tcb, queued: bool) {
    && (Quiet(t) ==> Quiet(t') && (HasWork(t') ==> HasWork(t) || queued))
    && (HasClosingWork(t') ==> HasClosingWork(t) || queued || !t.state.CloseWait?)
  }

  ghost predicate StepKeeps(t: Tcb, r: Step) {
    Rises(t, r.tcb) && Link(t, r.tcb) && Wakes(t, r.tcb, r.dirty)
  }

  lemma ReceiveEstablishedKeeps(t: Tcb, p: Segment)
    requires t.state.Established?
    ensures StepKeeps(t, HandleEstablished(t, p))
  {
    if !p.fin {
      var t' := AcceptAck(t, p);
      var r := AcceptPayload(t', p, p.ack && WantsToSend(t'));
      assert WantsToSend(r.tcb) == WantsToSend(t');
      assert r.tcb.state == t.state && r.tcb.id == t.id;
    }
  }

  /** Entering ESTABLISHED leaves no work behind: nothing was written during the handshake. */
  lemma HandshakeKeeps(t: Tcb, p: Segment)
    requires t.state.SynSent? || t.state.SynReceived?
    ensures StepKeeps(t, Receive(t, p))
  {
  }

  lemma TeardownKeeps(t: Tcb, p: Segment)
    requires !t.state.SynSent? && !t.state.SynReceived? && !t.state.Established?
    ensures StepKeeps(t, Receive(t, p))
  {
  }

  lemma ReceiveKeeps(t: Tcb, p: Segment)
    ensures StepKeeps(t, Receive(t, p))
  {
    if t.state.Established? { ReceiveEstablishedKeeps(t, p); }
    else if t.state.SynSent? || t.state.SynReceived? { HandshakeKeeps(t, p); }
    else { TeardownKeeps(t, p); }
  }

  /** A processed block asks to be queued again exactly when it still has work. */
  lemma ProcessKeeps(t: Tcb)
    ensures var r := ProcessBlock(t);
      StepKeeps(t, r) && r.tcb.state == t.state && (HasWork(r.tcb) || HasClosingWork(r.tcb) ==> r.dirty)
  {
    if Unclosed(t.state) && NextChunk(t) == [] {
      assert !WantsToSend(t);
    }
  }

  lemma RetransmitKeeps(t: Tcb)
    ensures StepKeeps(t, Retransmit(t)) && Retransmit(t).tcb == t && Retransmit(t).effect.Keep? && !Retransmit(t).dirty
  {
  }

  /**
   * A close from any state leaves no work unqueued. It keeps the order of states except from
   * FIN_WAIT_2, CLOSING and CLOSED, which it sends back to LAST_ACK (and from TIME_WAIT, which
   * is unreachable).
   */
  lemma CloseKeeps(t: Tcb)
    ensures Link(t, CloseConnection(t).tcb) && Wakes(t, CloseConnection(t).tcb, CloseConnection(t).dirty)
    ensures Rises(t, CloseConnection(t).tcb) <==> CloseRises(t.state)
  {
    ProcessKeeps(t);
  }

  predicate CloseRises(s: State) {
    s.LastAck? || Rank(s) < 5
  }

  /** Only a FIN in ESTABLISHED enters CLOSE_WAIT, and it asks for no turn of the daemon. */
  lemma OnlyFinEntersCloseWait(t: Tcb, p: Segment)
    ensures Receive(t, p).tcb.state.CloseWait? && !t.state.CloseWait? ==> t.state.Established? && p.fin && !Receive(t, p).dirty
    ensures t.state.CloseWait? ==> Receive(t, p) == Stay(t)
  {
    if !t.state.Established? { OthersAvoidCloseWait(t, p); }
  }

  lemma OthersAvoidCloseWait(t: Tcb, p: Segment)
    requires !t.state.Established?
    ensures Receive(t, p).tcb.state.CloseWait? ==> t.state.CloseWait?
  {
  }

  /** What no step of a connection touches, and when it asks for an accept entry. */
  ghost predicate Steady(t: Tcb, r: Step) {
    && r.tcb.id == t.id && r.tcb.acceptQueue == t.acceptQueue
    && r.tcb.src == t.src && r.tcb.dst == t.dst
    && (r.effect.EnqueueAccept? ==> t.state.SynReceived? && r.tcb.state.Established?)
  }

  lemma EstablishedSteady(t: Tcb, p: Segment)
    requires t.state.Established?
    ensures Steady(t, HandleEstablished(t, p))
  {
  }

  lemma HandshakeSteady(t: Tcb, p: Segment)
    requires t.state.SynSent? || t.state.SynReceived?
    ensures Steady(t, Receive(t, p))
  {
  }

  lemma ReceiveSteady(t: Tcb, p: Segment)
    ensures Steady(t, Receive(t, p))
  {
    if t.state.Established? { EstablishedSteady(t, p); }
    else if t.state.SynSent? || t.state.SynReceived? { HandshakeSteady(t, p); }
    else { TeardownSteady(t, p); }
  }

  lemma TeardownSteady(t: Tcb, p: Segment)
    requires !t.state.SynSent? && !t.state.SynReceived? && !t.state.Established?
    ensures Steady(t, Receive(t, p))
  {
  }

  lemma SendingSteady(t: Tcb)
    ensures Steady(t, ProcessBlock(t)) && Steady(t, Retransmit(t)) && Steady(t, CloseConnection(t))
    ensures !ProcessBlock(t).effect.EnqueueAccept? && !Retransmit(t).effect.EnqueueAccept?
    ensures !CloseConnection(t).effect.EnqueueAccept?
  {
  }
}

/**
 * When the acknowledgement of a FIN is recognized. FIN_WAIT_1, CLOSING and LAST_ACK compare it
 * with SND.NXT, but the daemon goes on sending data in two of these states and moves SND.NXT
 * past the FIN; from then on the acknowledgement of the FIN is ignored.
 */
module FinAck {
  import opened Words
  import opened ControlBlock
  import opened Sender
  import opened CloseFlush

  predicate AwaitsFinAck(s: State) {
    s.FinWait1? || s.Closing? || s.LastAck?
  }

  /** What happens on this side alone, between the close and the next arrival. */
  predicate Local(events: seq<Event>) {
    forall k | 0 <= k < |events| :: !events[k].AppClose? && !events[k].Arrive?
  }

  predicate NoWrites(events: seq<Event>) {
    forall k | 0 <= k < |events| :: !events[k].AppSend?
  }

  ghost predicate NoData(out: seq<Segment>) {
    forall seg | seg in out :: seg.payload == []
  }

  lemma LocalStep(t: Tcb, s: Ideal, e: Event)
    requires Simulates(t, s) && AwaitsFinAck(t.state) && !e.AppClose? && !e.Arrive?
    ensures var t', s' := TcbStep(t, e).tcb, Later(s, t.state, e);
      && Simulates(t', s') && t'.state == t.state && Origin(t') == Origin(t)
      && s'.una == s.una && s'.nxt >= s.nxt
      && (NoData(TcbStep(t, e).out) <==> s'.nxt == s.nxt)
  {
    match e
    case AppSend(data) => SimulateSend(t, s, data);
    case Daemon =>
      ProcessKeepsRest(t);
      if MaySendData(t.state) { SimulateProcess(t, s); }
    case Timeout => SimulateRetransmit(t, s);
    case _ =>
  }

  lemma {:induction false} LocalRun(t: Tcb, s: Ideal, events: seq<Event>)
    requires Simulates(t, s) && AwaitsFinAck(t.state) && Local(events)
    ensures var (t', out), s' := TcbRun(t, events), LaterRun(t, s, events);
      && Simulates(t', s') && t'.state == t.state && Origin(t') == Origin(t)
      && s'.una == s.una && s'.nxt >= s.nxt
      && (NoData(out) <==> s'.nxt == s.nxt)
    decreases |events|
  {
    if events != [] {
      var e := events[0];
      var t', s' := TcbStep(t, e).tcb, Later(s, t.state, e);
      LocalStep(t, s, e);
      LocalRun(t', s', events[1..]);
      NoDataAppend(TcbStep(t, e).out, TcbRun(t', events[1..]).1);
    }
  }

  lemma NoDataAppend(p: seq<Segment>, q: seq<Segment>)
    ensures NoData(p + q) <==> NoData(p) && NoData(q)
  {
  }

  /** The segment that acknowledges the FIN takes the block to its next state. */
  predicate Recognized(t: Tcb, p: Segment) {
    Receive(t, p).tcb.state == if t.state.FinWait1? then FinWait2 else Closed
  }

  /**
   * From any state of a closed sender and after any run of writes, reads, transmissions and
   * timeouts: the acknowledgement of all that had been sent at the start, FIN included, is
   * recognized if and only if no data went out in between; otherwise it changes nothing.
   */
  lemma FinAckRecognizedExactlyWhen(t: Tcb, s: Ideal, events: seq<Event>, p: Segment)
    requires Simulates(t, s) && AwaitsFinAck(t.state) && Local(events)
    requires p.ack && !p.fin && p.ackNum == t.sndNxt
    ensures var (t', out) := TcbRun(t, events);
      (Recognized(t', p) <==> NoData(out)) && (!NoData(out) ==> Receive(t', p) == Stay(t'))
  {
    LocalRun(t, s, events);
    SameNumber(t, s, TcbRun(t, events).0, LaterRun(t, s, events));
    MatchesNext(TcbRun(t, events).0, p);
  }

  /** With SND.UNA in place, SND.NXT cannot come round to the same number. */
  lemma SameNumber(t: Tcb, s: Ideal, t': Tcb, s': Ideal)
    requires Simulates(t, s) && Simulates(t', s') && Origin(t') == Origin(t)
    requires s'.una == s.una && s'.nxt >= s.nxt
    ensures t'.sndNxt == t.sndNxt <==> s'.nxt == s.nxt
  {
    if t'.sndNxt == t.sndNxt {
      WrapInjective(Origin(t) + s'.nxt, Origin(t) + s.nxt);
    }
  }

  lemma MatchesNext(t: Tcb, p: Segment)
    requires AwaitsFinAck(t.state) && p.ack && !p.fin
    ensures Recognized(t, p) <==> p.ackNum == t.sndNxt
    ensures p.ackNum != t.sndNxt ==> Receive(t, p) == Stay(t)
  {
  }

  /** A block with nothing to send stays silent for as long as nothing is written. */
  lemma {:induction false} SilentRun(t: Tcb, s: Ideal, events: seq<Event>)
    requires Simulates(t, s) && AwaitsFinAck(t.state) && Local(events) && NoWrites(events)
    requires IdealLength(s) == 0
    ensures NoData(TcbRun(t, events).1)
    decreases |events|
  {
    if events != [] {
      var e := events[0];
      LocalStep(t, s, e);
      SilentRun(TcbStep(t, e).tcb, Later(s, t.state, e), events[1..]);
      NoDataAppend(TcbStep(t, e).out, TcbRun(TcbStep(t, e).tcb, events[1..]).1);
    }
  }

  lemma WantsExactlyWhen(t: Tcb, s: Ideal)
    requires Simulates(t, s)
    ensures WantsToSend(t) <==> IdealLength(s) > 0
  {
    InFlightIsTrue(t, s);
  }

  /**
   * A close from which the acknowledgement of the FIN will be recognized whatever the daemon
   * and the timer do: exactly one that leaves nothing to send behind the FIN. One segment that
   * suffices is enough for this.
   */
  lemma CloseAcknowledgedExactlyWhen(t: Tcb, s: Ideal, p: Segment)
    requires Simulates(t, s) && Unclosed(t.state)
    requires p.ack && !p.fin && p.ackNum == CloseConnection(t).tcb.sndNxt
    ensures var closed := CloseConnection(t).tcb;
      && ((forall events | Local(events) && NoWrites(events) :: Recognized(TcbRun(closed, events).0, p)) <==> !WantsToSend(closed))
      && (OneSegmentSuffices(t) ==> !WantsToSend(closed))
  {
    var closed, s' := CloseConnection(t).tcb, IdealClose(s);
    SimulateClose(t, s);
    WantsExactlyWhen(closed, s');
    FinPositionIsEnd(t, s);
    if WantsToSend(closed) {
      DaemonOutrunsAck(closed, s', p);
    } else {
      forall events | Local(events) && NoWrites(events) ensures Recognized(TcbRun(closed, events).0, p) {
        SilentRun(closed, s', events);
        FinAckRecognizedExactlyWhen(closed, s', events, p);
      }
    }
  }

  /** One turn of the daemon is enough to lose the acknowledgement. */
  lemma DaemonOutrunsAck(t: Tcb, s: Ideal, p: Segment)
    requires Simulates(t, s) && (t.state.FinWait1? || t.state.LastAck?) && IdealLength(s) > 0
    requires p.ack && !p.fin && p.ackNum == t.sndNxt
    ensures var events := [Daemon];
      Local(events) && NoWrites(events) && !Recognized(TcbRun(t, events).0, p)
  {
    var events := [Daemon];
    SimulateProcess(t, s);
    FinAckRecognizedExactlyWhen(t, s, events, p);
    assert ProcessBlock(t).out[0] in TcbRun(t, events).1;
  }
}

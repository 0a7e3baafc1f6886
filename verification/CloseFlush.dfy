/**
 * What `close_connection` does with data that is still unsent. It transmits at most one more
 * segment before the FIN, so the FIN marks the end of the stream only under the condition
 * stated here; otherwise the FIN takes the sequence number of a data byte, and no later
 * transmission carries that byte.
 */
module CloseFlush {
  import opened Words
  import opened ControlBlock
  import opened Sender

  // ------------------------------------------------------- the number of the FIN

  /** What a caller can check before `close`: the rest fits one segment and the window. */
  predicate OneSegmentSuffices(t: Tcb) {
    || InFlight(t) == |t.sendBuf|
    || (InFlight(t) < |t.sendBuf| <= InFlight(t) + MAX_SEGMENT && |t.sendBuf| <= t.sndWnd)
  }

  /** The stream position whose number the FIN takes. */
  ghost function FinPosition(s: Ideal): int
    requires Coherent(s)
  {
    s.nxt + IdealLength(s)
  }

  lemma FinPositionIsEnd(t: Tcb, s: Ideal)
    requires Simulates(t, s) && Unclosed(t.state)
    ensures FinPosition(s) <= |s.stream|
    ensures FinPosition(s) == |s.stream| <==> OneSegmentSuffices(t)
  {
    InFlightIsTrue(t, s);
  }

  /**
   * In both states from which a FIN is sent, also when a FIN of the peer has moved SND.NXT
   * back: the FIN is numbered just past the last application byte if and only if one segment
   * suffices.
   */
  lemma FinEndsStreamExactlyWhen(t: Tcb, s: Ideal)
    requires Simulates(t, s) && Unclosed(t.state)
    ensures CloseConnection(t).out != []
    ensures var out := CloseConnection(t).out;
      out[|out| - 1].fin && (out[|out| - 1].seqNum == Wrap(Origin(t) + |s.stream|) <==> OneSegmentSuffices(t))
  {
    SimulateClose(t, s);
    FinPositionIsEnd(t, s);
    if Wrap(Origin(t) + FinPosition(s)) == Wrap(Origin(t) + |s.stream|) {
      WrapInjective(Origin(t) + FinPosition(s), Origin(t) + |s.stream|);
    }
  }

  /**
   * The same for a whole connection: after every run that leaves it ESTABLISHED or CLOSE_WAIT,
   * the FIN ends the stream of all that was ever written exactly on that condition.
   */
  lemma FinEndsRunExactlyWhen(t: Tcb, s: Ideal, events: seq<Event>)
    requires Simulates(t, s) && AdmissibleRun(t, s, events)
    requires Unclosed(TcbRun(t, events).0.state)
    ensures var t' := TcbRun(t, events).0;
      var out := CloseConnection(t').out;
      && out != [] && out[|out| - 1].fin
      && (out[|out| - 1].seqNum == Wrap(Origin(t) + |IdealRun(t, s, events).stream|) <==> OneSegmentSuffices(t'))
  {
    EveryRunIsAligned(t, s, events);
    FinEndsStreamExactlyWhen(TcbRun(t, events).0, IdealRun(t, s, events));
  }

  /** One byte more than a segment, nothing in flight, a window of any size: the FIN comes early. */
  lemma CloseCutsStream(t: Tcb, data: seq<u8>)
    requires Unclosed(t.state) && |data| == MAX_SEGMENT + 1
    requires t.sendBuf == data && t.sndUna == t.sndNxt == Wrap(Origin(t))
    ensures var out := CloseConnection(t).out;
      out != [] && out[|out| - 1].fin && out[|out| - 1].seqNum != Wrap(Origin(t) + |data|)
  {
    assert Simulates(t, Ideal(data, 0, 0, t.sndWnd)) by { assert data[0..] == data; }
    FinEndsStreamExactlyWhen(t, Ideal(data, 0, 0, t.sndWnd));
  }

  /** Where the closed block stands: one past the FIN, with the send buffer untouched. */
  lemma AfterClose(t: Tcb, s: Ideal)
    requires Simulates(t, s) && Unclosed(t.state)
    ensures var t' := CloseConnection(t).tcb;
      && t'.sendBuf == t.sendBuf && t'.sndUna == t.sndUna && t'.sndWnd == t.sndWnd
      && t'.sndNxt == Wrap(Origin(t) + FinPosition(s) + 1)
      && (s.una <= s.nxt ==> InFlight(t') == FinPosition(s) + 1 - s.una)
  {
    SimulateClose(t, s);
    CloseIsFlushAndFin(t);
    ProcessKeepsRest(t);
    InFlightIsTrue(CloseConnection(t).tcb, IdealClose(s));
  }

  // ------------------------------------------------------- the byte under the FIN

  /** No stream byte, or stream bytes that all lie before or all lie after position `f`. */
  ghost predicate Avoids(seg: Segment, origin: int, stream: seq<u8>, f: int) {
    seg.payload == [] || exists c :: Carries(seg, origin, stream, c) && (c.pos + c.len <= f || f < c.pos)
  }

  lemma AvoidsGrows(seg: Segment, origin: int, stream: seq<u8>, longer: seq<u8>, f: int)
    requires Avoids(seg, origin, stream, f) && stream <= longer
    ensures Avoids(seg, origin, longer, f)
  {
    if seg.payload != [] {
      var c :| Carries(seg, origin, stream, c) && (c.pos + c.len <= f || f < c.pos);
      CarriesGrows(seg, origin, stream, longer, c);
    }
  }

  /** A block after its close: CLOSED, or with SND.NXT past position `f`. */
  ghost predicate Past(t: Tcb, s: Ideal, f: int) {
    && Coherent(s)
    && (t.state.Closed? ||
        (Simulates(t, s) && f < s.nxt && (t.state.FinWait1? || t.state.FinWait2? || t.state.Closing? || t.state.LastAck?)))
  }

  /** After a close only the application and the daemon move the sender. */
  ghost function Later(s: Ideal, state: State, e: Event): (s': Ideal)
    requires Coherent(s)
    ensures Coherent(s') && s.stream <= s'.stream && s.nxt <= s'.nxt
  {
    match e
    case AppSend(data) => IdealSend(s, data)
    case Daemon => if MaySendData(state) then IdealProcess(s) else s
    case _ => s
  }

  ghost function LaterRun(t: Tcb, s: Ideal, events: seq<Event>): (s': Ideal)
    requires Coherent(s)
    ensures Coherent(s') && s.stream <= s'.stream
    decreases |events|
  {
    if events == [] then s
    else LaterRun(TcbStep(t, events[0]).tcb, Later(s, t.state, events[0]), events[1..])
  }

  /** The application does not close a socket again that is already CLOSED. */
  predicate NoReclose(t: Tcb, events: seq<Event>)
    decreases |events|
  {
    events != [] ==>
      (events[0].AppClose? ==> !t.state.Closed?) && NoReclose(TcbStep(t, events[0]).tcb, events[1..])
  }

  lemma PastStep(t: Tcb, s: Ideal, f: int, e: Event)
    requires Past(t, s, f) && (e.AppClose? ==> !t.state.Closed?)
    ensures Past(TcbStep(t, e).tcb, Later(s, t.state, e), f)
    ensures !TcbStep(t, e).tcb.state.Closed? ==> Origin(TcbStep(t, e).tcb) == Origin(t)
    ensures forall seg | seg in TcbStep(t, e).out :: Avoids(seg, Origin(t), s.stream, f)
  {
    if t.state.Closed? {
      ClosedIsSilent(t, e);
    } else {
      match e
      case AppSend(data) => SimulateSend(t, s, data);
      case AppRecv(_) =>
      case AppClose => CloseElsewhere(t);
      case Daemon => PastDaemon(t, s, f);
      case Timeout => SimulateRetransmit(t, s);
      case Arrive(p, _) => LateArrivalFrame(t, p);
    }
  }

  lemma PastDaemon(t: Tcb, s: Ideal, f: int)
    requires Past(t, s, f) && !t.state.Closed?
    ensures Past(ProcessBlock(t).tcb, Later(s, t.state, Daemon), f)
    ensures Origin(ProcessBlock(t).tcb) == Origin(t)
    ensures forall seg | seg in ProcessBlock(t).out :: Avoids(seg, Origin(t), s.stream, f)
  {
    ProcessKeepsRest(t);
    if MaySendData(t.state) {
      SimulateProcess(t, s);
      if IdealLength(s) > 0 {
        assert Carries(ProcessBlock(t).out[0], Origin(t), s.stream, Chunk(s.nxt, IdealLength(s)));
      }
    }
  }

  lemma ClosedIsSilent(t: Tcb, e: Event)
    requires t.state.Closed? && !e.AppClose?
    ensures TcbStep(t, e).tcb.state.Closed?
    ensures forall seg | seg in TcbStep(t, e).out :: seg.payload == []
  {
  }

  lemma {:induction false} PastRun(t: Tcb, s: Ideal, f: int, events: seq<Event>)
    requires Past(t, s, f) && NoReclose(t, events)
    ensures forall seg | seg in TcbRun(t, events).1 :: Avoids(seg, Origin(t), LaterRun(t, s, events).stream, f)
    decreases |events|
  {
    if events != [] {
      var e := events[0];
      var t', s' := TcbStep(t, e).tcb, Later(s, t.state, e);
      PastStep(t, s, f, e);
      PastRun(t', s', f, events[1..]);
      var final := LaterRun(t, s, events).stream;
      forall seg | seg in TcbStep(t, e).out ensures Avoids(seg, Origin(t), final, f) {
        AvoidsGrows(seg, Origin(t), s.stream, final, f);
      }
      if t'.state.Closed? { SilentRun(t', events[1..]); }
    }
  }

  lemma {:induction false} SilentRun(t: Tcb, events: seq<Event>)
    requires t.state.Closed? && NoReclose(t, events)
    ensures forall seg | seg in TcbRun(t, events).1 :: seg.payload == []
    decreases |events|
  {
    if events != [] {
      ClosedIsSilent(t, events[0]);
      SilentRun(TcbStep(t, events[0]).tcb, events[1..]);
    }
  }

  /**
   * From a close on, whatever is sent, received, acknowledged, timed out or closed again, no
   * segment carries the byte under the number of the FIN. The one exclusion is a further close
   * of a socket that is already CLOSED; `RecloseSendsByte` shows that it is needed.
   */
  lemma ByteUnderFinIsSkipped(t: Tcb, s: Ideal, later: seq<Event>)
    requires Simulates(t, s) && Unclosed(t.state)
    requires NoReclose(CloseConnection(t).tcb, later)
    ensures var t', s' := CloseConnection(t).tcb, IdealClose(s);
      && Coherent(s')
      && var stream := LaterRun(t', s', later).stream;
      && s.stream <= stream
      && forall seg | seg in CloseConnection(t).out + TcbRun(t', later).1 :: Avoids(seg, Origin(t), stream, FinPosition(s))
  {
    var t', s', f := CloseConnection(t).tcb, IdealClose(s), FinPosition(s);
    SimulateClose(t, s);
    CloseIsFlushAndFin(t);
    ProcessKeepsRest(t);
    PastRun(t', s', f, later);
    var stream := LaterRun(t', s', later).stream;
    forall seg | seg in CloseConnection(t).out ensures Avoids(seg, Origin(t), stream, f) {
      CloseBelow(t, s, f);
      AvoidsGrows(seg, Origin(t), s.stream, stream, f);
    }
  }

  // ------------------------------------------------------- a whole connection

  /** The highest position that SND.NXT reaches in a run. A FIN of the peer can move it back. */
  ghost function Highest(t: Tcb, s: Ideal, events: seq<Event>): (h: int)
    requires AdmissibleRun(t, s, events)
    ensures h >= s.nxt
    decreases |events|
  {
    if events == [] then s.nxt
    else Max(s.nxt, Highest(TcbStep(t, events[0]).tcb, IdealStep(s, t.state, events[0]), events[1..]))
  }

  /** What a step sends lies below SND.NXT and so below everything after it. */
  lemma StepAvoids(t: Tcb, s: Ideal, e: Event, seg: Segment, f: int)
    requires Simulates(t, s) && Admissible(s, Origin(t), t.state, e)
    requires seg in TcbStep(t, e).out && f >= s.nxt && f >= IdealStep(s, t.state, e).nxt
    ensures Avoids(seg, Origin(t), s.stream, f)
  {
    match e
    case Daemon =>
      ProcessKeepsRest(t);
      if MaySendData(t.state) { FlushBelow(t, s, f); }
    case AppClose => if Unclosed(t.state) { CloseBelow(t, s, f); } else { CloseElsewhere(t); }
    case Timeout => SimulateRetransmit(t, s);
    case Arrive(p, k) => SimulateArrival(t, s, p, k);
    case _ =>
  }

  lemma FlushBelow(t: Tcb, s: Ideal, f: int)
    requires Simulates(t, s) && MaySendData(t.state) && f >= s.nxt + IdealLength(s)
    ensures forall seg | seg in ProcessBlock(t).out :: Avoids(seg, Origin(t), s.stream, f)
  {
    SimulateProcess(t, s);
    if IdealLength(s) > 0 {
      assert Carries(ProcessBlock(t).out[0], Origin(t), s.stream, Chunk(s.nxt, IdealLength(s)));
    }
  }

  lemma CloseBelow(t: Tcb, s: Ideal, f: int)
    requires Simulates(t, s) && Unclosed(t.state) && f >= s.nxt + IdealLength(s)
    ensures forall seg | seg in CloseConnection(t).out :: Avoids(seg, Origin(t), s.stream, f)
  {
    FlushBelow(t, s, f);
    CloseIsFlushAndFin(t);
  }

  lemma {:induction false} RunAvoids(t: Tcb, s: Ideal, events: seq<Event>, f: int)
    requires Simulates(t, s) && AdmissibleRun(t, s, events) && f >= Highest(t, s, events)
    ensures forall seg | seg in TcbRun(t, events).1 :: Avoids(seg, Origin(t), IdealRun(t, s, events).stream, f)
    decreases |events|
  {
    if events != [] {
      var e := events[0];
      var t', s' := TcbStep(t, e).tcb, IdealStep(s, t.state, e);
      SimulateStep(t, s, e);
      RunAvoids(t', s', events[1..], f);
      StreamGrows(t', s', events[1..]);
      forall seg | seg in TcbStep(t, e).out ensures Avoids(seg, Origin(t), IdealRun(t', s', events[1..]).stream, f) {
        StepAvoids(t, s, e, seg, f);
        AvoidsGrows(seg, Origin(t), s.stream, IdealRun(t', s', events[1..]).stream, f);
      }
    }
  }

  ghost predicate CarriesByte(seg: Segment, origin: int, stream: seq<u8>, f: int) {
    exists c :: Carries(seg, origin, stream, c) && c.pos <= f < c.pos + c.len
  }

  predicate NoClose(events: seq<Event>) {
    forall k | 0 <= k < |events| :: !events[k].AppClose?
  }

  lemma StepCarries(t: Tcb, s: Ideal, e: Event, f: int)
    requires Simulates(t, s) && Admissible(s, Origin(t), t.state, e) && !e.AppClose?
    requires s.nxt <= f < IdealStep(s, t.state, e).nxt
    ensures exists seg :: seg in TcbStep(t, e).out && CarriesByte(seg, Origin(t), s.stream, f)
  {
    assert e.Daemon?;
    SimulateProcess(t, s);
    var seg := ProcessBlock(t).out[0];
    assert Carries(seg, Origin(t), s.stream, Chunk(s.nxt, IdealLength(s)));
    assert CarriesByte(seg, Origin(t), s.stream, f);
  }

  /** Every position that SND.NXT passes has been sent. */
  lemma {:induction false} RunCarries(t: Tcb, s: Ideal, events: seq<Event>, f: int)
    requires Simulates(t, s) && AdmissibleRun(t, s, events) && NoClose(events)
    requires s.nxt <= f < Highest(t, s, events)
    ensures exists seg :: seg in TcbRun(t, events).1 && CarriesByte(seg, Origin(t), IdealRun(t, s, events).stream, f)
    decreases |events|
  {
    var e := events[0];
    var t', s' := TcbStep(t, e).tcb, IdealStep(s, t.state, e);
    var final := IdealRun(t', s', events[1..]).stream;
    SimulateStep(t, s, e);
    if f < s'.nxt {
      StepCarries(t, s, e, f);
      StreamGrows(t', s', events[1..]);
      var seg :| seg in TcbStep(t, e).out && CarriesByte(seg, Origin(t), s.stream, f);
      CarriesByteGrows(seg, Origin(t), s.stream, final, f);
      assert seg in TcbRun(t, events).1;
    } else {
      RunCarries(t', s', events[1..], f);
      var seg :| seg in TcbRun(t', events[1..]).1 && CarriesByte(seg, Origin(t), final, f);
      assert seg in TcbRun(t, events).1;
    }
  }

  lemma CarriesByteGrows(seg: Segment, origin: int, stream: seq<u8>, longer: seq<u8>, f: int)
    requires CarriesByte(seg, origin, stream, f) && stream <= longer
    ensures CarriesByte(seg, origin, longer, f)
  {
    var c :| Carries(seg, origin, stream, c) && c.pos <= f < c.pos + c.len;
    CarriesGrows(seg, origin, stream, longer, c);
  }

  /** Without a FIN of the peer, SND.NXT never moves back, so it ends at its highest position. */
  lemma {:induction false} TransferPeaks(t: Tcb, s: Ideal, events: seq<Event>)
    requires Simulates(t, s) && t.state.Established? && AdmissibleRun(t, s, events) && NoClose(events)
    requires forall k | 0 <= k < |events| && events[k].Arrive? :: !events[k].p.fin
    ensures TcbRun(t, events).0.state.Established? && Highest(t, s, events) == IdealRun(t, s, events).nxt
    decreases |events|
  {
    if events != [] {
      SimulateStep(t, s, events[0]);
      TransferStep(t, s, events[0]);
      TransferPeaks(TcbStep(t, events[0]).tcb, IdealStep(s, t.state, events[0]), events[1..]);
    }
  }

  lemma TransferStep(t: Tcb, s: Ideal, e: Event)
    requires Simulates(t, s) && t.state.Established? && Admissible(s, Origin(t), t.state, e)
    requires !e.AppClose? && (e.Arrive? ==> !e.p.fin)
    ensures s.nxt <= IdealStep(s, t.state, e).nxt && TcbStep(t, e).tcb.state.Established?
  {
    if e.Daemon? { ProcessKeepsRest(t); }
  }

  /**
   * A connection from its first byte to whatever follows its close, FINs of the peer included:
   * if one segment did not suffice when it was closed, the FIN has the number of an application
   * byte. If SND.NXT has never been past that number, no segment of the whole life of the
   * connection carries that byte; if a FIN of the peer had moved SND.NXT back below it, the
   * byte had been sent before.
   */
  lemma SkippedByteIsNeverSent(t: Tcb, s: Ideal, events: seq<Event>, later: seq<Event>)
    requires Simulates(t, s) && AdmissibleRun(t, s, events) && NoClose(events)
    requires Unclosed(TcbRun(t, events).0.state) && !OneSegmentSuffices(TcbRun(t, events).0)
    requires NoReclose(CloseConnection(TcbRun(t, events).0).tcb, later)
    ensures var t', s' := TcbRun(t, events).0, IdealRun(t, s, events);
      && FinTakesByte(t', s', Origin(t))
      && var f, closed := FinPosition(s'), CloseConnection(t').tcb;
      var stream := LaterRun(closed, IdealClose(s'), later).stream;
      && s'.stream <= stream
      && (f >= Highest(t, s, events) ==>
            forall seg | seg in TcbRun(t, events).1 + CloseConnection(t').out + TcbRun(closed, later).1 ::
              Avoids(seg, Origin(t), stream, f))
      && (s.nxt <= f < Highest(t, s, events) ==>
            exists seg :: seg in TcbRun(t, events).1 && CarriesByte(seg, Origin(t), stream, f))
  {
    EveryRunIsAligned(t, s, events);
    var t', s' := TcbRun(t, events).0, IdealRun(t, s, events);
    FinNumberIsByte(t', s');
    ByteUnderFinIsSkipped(t', s', later);
    BeforeClose(t, s, events, FinPosition(s'), LaterRun(CloseConnection(t').tcb, IdealClose(s'), later).stream);
  }

  lemma FinNumberIsByte(t: Tcb, s: Ideal)
    requires Simulates(t, s) && Unclosed(t.state) && !OneSegmentSuffices(t)
    ensures FinTakesByte(t, s, Origin(t))
  {
    SimulateClose(t, s);
    FinPositionIsEnd(t, s);
  }

  /** The run before the close, seen with the stream as it is in the end. */
  lemma BeforeClose(t: Tcb, s: Ideal, events: seq<Event>, f: int, stream: seq<u8>)
    requires Simulates(t, s) && AdmissibleRun(t, s, events) && NoClose(events)
    requires IdealRun(t, s, events).stream <= stream
    ensures f >= Highest(t, s, events) ==> forall seg | seg in TcbRun(t, events).1 :: Avoids(seg, Origin(t), stream, f)
    ensures s.nxt <= f < Highest(t, s, events) ==>
      exists seg :: seg in TcbRun(t, events).1 && CarriesByte(seg, Origin(t), stream, f)
  {
    var s' := IdealRun(t, s, events);
    if f >= Highest(t, s, events) {
      RunAvoids(t, s, events, f);
      forall seg | seg in TcbRun(t, events).1 ensures Avoids(seg, Origin(t), stream, f) {
        AvoidsGrows(seg, Origin(t), s'.stream, stream, f);
      }
    } else if s.nxt <= f {
      RunCarries(t, s, events, f);
      var seg :| seg in TcbRun(t, events).1 && CarriesByte(seg, Origin(t), s'.stream, f);
      CarriesByteGrows(seg, Origin(t), s'.stream, stream, f);
    }
  }

  /** The FIN has the number of a byte of the stream. */
  ghost predicate FinTakesByte(t: Tcb, s: Ideal, origin: int) {
    && Coherent(s) && Coherent(IdealClose(s)) && FinPosition(s) < |s.stream|
    && var out := CloseConnection(t).out;
    out != [] && out[|out| - 1].fin && out[|out| - 1].seqNum == Wrap(origin + FinPosition(s))
  }

  /** The acknowledgement of the FIN, and a FIN that acknowledges only the bytes before it. */
  ghost function FinAcked(origin: int, f: int): seq<Event> {
    var ack := Segment(0, Wrap(origin + f + 1), false, true, false, false, 0, []);
    var fin := Segment(0, Wrap(origin + f), false, true, false, true, 0, []);
    [Arrive(ack, f + 1), Arrive(fin, f)]
  }

  /**
   * The exclusion is needed: the FIN of the peer moves SND.NXT back in FIN_WAIT_2, a close of
   * the CLOSED block makes it LAST_ACK, and the daemon then sends the byte after all.
   */
  lemma RecloseSendsByte(t: Tcb, s: Ideal)
    requires Simulates(t, s) && t.state.Established?
    requires !OneSegmentSuffices(t) && FinPosition(s) < s.una + s.wnd
    ensures var f := FinPosition(s);
      var r := TcbRun(CloseConnection(t).tcb, FinAcked(Origin(t), f) + [AppClose, Daemon]);
      |r.1| == 2 && r.1[1].payload != [] && Carries(r.1[1], Origin(t), s.stream, Chunk(f, |r.1[1].payload|))
  {
    FinPositionIsEnd(t, s);
    SimulateClose(t, s);
    SimulateAppClose(t, s);
    RecloseSends(CloseConnection(t).tcb, IdealClose(s), FinPosition(s));
  }

  lemma RecloseSends(t: Tcb, s: Ideal, f: int)
    requires Simulates(t, s) && t.state.FinWait1? && s.nxt == f + 1
    requires s.una <= f < |s.stream| && f < s.una + s.wnd
    ensures var r := TcbRun(t, FinAcked(Origin(t), f) + [AppClose, Daemon]);
      |r.1| == 2 && r.1[1].payload != [] && Carries(r.1[1], Origin(t), s.stream, Chunk(f, |r.1[1].payload|))
  {
    RecloseRewinds(t, s, f);
    RewoundSends(t, s, Rewound(t, Wrap(Origin(t) + f)), f);
    var r := TcbRun(t, FinAcked(Origin(t), f) + [AppClose, Daemon]);
    assert r.1[1] == r.1[1..][0];
  }

  ghost function Rewound(t: Tcb, nxt: u32): Tcb {
    t.(state := LastAck, recvWoken := true, sendWoken := true, rcvNxt := 1, sndNxt := nxt)
  }

  lemma RewoundSends(t: Tcb, s: Ideal, t': Tcb, f: int)
    requires Simulates(t, s) && t' == Rewound(t, Wrap(Origin(t) + f))
    requires s.una <= f < |s.stream| && f < s.una + s.wnd
    ensures var out := ProcessBlock(t').out;
      |out| == 1 && out[0].payload != [] && Carries(out[0], Origin(t), s.stream, Chunk(f, |out[0].payload|))
  {
    SimulateProcess(t', s.(nxt := f));
  }

  /** The events run, one after the other. */
  lemma RecloseRewinds(t: Tcb, s: Ideal, f: int)
    requires Simulates(t, s) && t.state.FinWait1? && s.nxt == f + 1
    ensures var r := TcbRun(t, FinAcked(Origin(t), f) + [AppClose, Daemon]);
      var t3 := Rewound(t, Wrap(Origin(t) + f));
      |r.1| == 1 + |ProcessBlock(t3).out| && r.1[1..] == ProcessBlock(t3).out
  {
    var acked := FinAcked(Origin(t), f);
    var t2 := t.(state := Closed, rcvNxt := 1, sndNxt := Wrap(Origin(t) + f));
    PeerCloses(t, acked[0].p, acked[1].p);
    TwoSteps(t, t.(state := FinWait2), acked[0], acked[1], [AppClose, Daemon]);
    assert acked == [acked[0], acked[1]];
    CloseThenSend(t2);
  }

  lemma CloseThenSend(t: Tcb)
    requires t.state.Closed?
    ensures var t' := t.(state := LastAck, recvWoken := true, sendWoken := true);
      TcbRun(t, [AppClose, Daemon]).1 == ProcessBlock(t').out
  {
    var t' := t.(state := LastAck, recvWoken := true, sendWoken := true);
    CloseElsewhere(t);
    TwoSteps(t, t', AppClose, Daemon, []);
    assert [AppClose, Daemon] + [] == [AppClose, Daemon];
  }

  lemma TwoSteps(t: Tcb, t': Tcb, e: Event, e': Event, events: seq<Event>)
    requires TcbStep(t, e).tcb == t'
    ensures TcbRun(t, [e, e'] + events).1
         == TcbStep(t, e).out + (TcbStep(t', e').out + TcbRun(TcbStep(t', e').tcb, events).1)
  {
    assert ([e, e'] + events)[1..] == [e'] + events;
    assert ([e'] + events)[1..] == events;
  }

  lemma PeerCloses(t: Tcb, ack: Segment, fin: Segment)
    requires t.state.FinWait1? && ack.ack && !ack.fin && ack.ackNum == t.sndNxt
    requires fin.ack && fin.fin && fin.seqNum == 0
    ensures Receive(t, ack) == Stay(t.(state := FinWait2))
    ensures var r := Receive(t.(state := FinWait2), fin);
      && |r.out| == 1
      && r.tcb == t.(state := Closed, rcvNxt := 1, sndNxt := fin.ackNum)
  {
    WrapSmall(1);
  }
}

/**
 * The 32-bit sender refines one with unbounded stream positions. `Ideal` counts bytes of the
 * application stream from 0; `Simulates` ties a control block to it, from the end of the
 * handshake on; one lemma per step shows that the wrapped arithmetic takes the same decision
 * and emits the same bytes.
 */
module Sender {
  import opened Words
  import opened ControlBlock

  /**
   * Bytes [0, una) are acknowledged, [una, nxt) in flight, [nxt, |stream|) unsent. A FIN counts
   * as one more position. A FIN with an old acknowledgement can put `nxt` before `una`.
   */
  datatype Ideal = Ideal(stream: seq<u8>, una: nat, nxt: int, wnd: nat)

  /** A slice of the stream put on the wire. */
  datatype Chunk = Chunk(pos: nat, len: nat)

  ghost predicate Coherent(s: Ideal) {
    s.una <= |s.stream| <= s.una + CAPACITY && s.una - 0x8000_0000 <= s.nxt <= |s.stream| + 1
  }

  /** The sequence number of stream position 0 is ISS + 1. */
  ghost function Origin(t: Tcb): int {
    t.iss + 1
  }

  ghost predicate Simulates(t: Tcb, s: Ideal) {
    && Coherent(s)
    && !t.state.SynSent? && !t.state.SynReceived?
    && (t.state.Established? ==> s.una <= s.nxt)
    && (Unclosed(t.state) ==> s.nxt <= |s.stream|)
    && t.sendBuf == s.stream[s.una..]
    && t.sndUna == Wrap(Origin(t) + s.una)
    && t.sndNxt == Wrap(Origin(t) + s.nxt)
    && t.sndWnd == s.wnd
  }

  /** `seg` carries exactly the stream bytes of chunk `c`, numbered from the origin. */
  ghost predicate Carries(seg: Segment, origin: int, stream: seq<u8>, c: Chunk) {
    && 1 <= c.len <= MAX_SEGMENT
    && c.pos + c.len <= |stream|
    && seg.seqNum == Wrap(origin + c.pos)
    && seg.payload == stream[c.pos..c.pos + c.len]
  }

  // ------------------------------------------------------- the unbounded sender

  ghost function IdealSend(s: Ideal, data: seq<u8>): Ideal
    requires Coherent(s)
  {
    s.(stream := s.stream + data[..Min(|data|, CAPACITY - (|s.stream| - s.una))])
  }

  /** How many new bytes the window, the segment size and the stream allow. */
  ghost function IdealLength(s: Ideal): nat
    requires Coherent(s)
  {
    if s.una <= s.nxt <= |s.stream|
    then Min(Max(s.una + s.wnd - s.nxt, 0), Min(MAX_SEGMENT, |s.stream| - s.nxt))
    else 0
  }

  ghost function IdealProcess(s: Ideal): Ideal
    requires Coherent(s)
  {
    s.(nxt := s.nxt + IdealLength(s))
  }

  /** An acknowledgement of all positions below `k`; older ones only refresh the window. */
  ghost function IdealAck(s: Ideal, k: int, wnd: nat): Ideal {
    s.(una := if k > s.una then k else s.una, wnd := wnd)
  }

  // ------------------------------------------------------- simulation, step by step

  /**
   * `SND.NXT - SND.UNA` on `uint32_t` is the true distance, never more than a full buffer while
   * ESTABLISHED and one more after a FIN; it is out of reach when SND.NXT lies behind.
   */
  lemma InFlightIsTrue(t: Tcb, s: Ideal)
    requires Simulates(t, s)
    ensures s.una <= s.nxt ==> InFlight(t) == s.nxt - s.una <= |t.sendBuf| + 1
    ensures s.nxt < s.una ==> InFlight(t) >= 0x8000_0000
    ensures t.state.Established? ==> InFlight(t) == s.nxt - s.una <= |t.sendBuf| <= CAPACITY
    ensures WantsToSend(t) <==> s.una <= s.nxt < |s.stream| && s.nxt < s.una + s.wnd
  {
    SubOfWraps(Origin(t), s.nxt, s.una);
  }

  lemma SimulateSend(t: Tcb, s: Ideal, data: seq<u8>)
    requires Simulates(t, s)
    ensures Simulates(Send(t, data), IdealSend(s, data))
  {
    var n := Min(|data|, CAPACITY - |t.sendBuf|);
    assert (s.stream + data[..n])[s.una..] == s.stream[s.una..] + data[..n];
  }

  /** `process_block_` in any of the states in which it sends data. */
  lemma SimulateProcess(t: Tcb, s: Ideal)
    requires Simulates(t, s) && MaySendData(t.state)
    ensures Simulates(ProcessBlock(t).tcb, IdealProcess(s))
    ensures IdealLength(s) == 0 ==> ProcessBlock(t) == Stay(t)
    ensures IdealLength(s) > 0 ==>
      && |ProcessBlock(t).out| == 1
      && ProcessBlock(t).out[0] == DataSegment(t, s.stream[s.nxt..s.nxt + IdealLength(s)], t.sndNxt)
      && Carries(ProcessBlock(t).out[0], Origin(t), s.stream, Chunk(s.nxt, IdealLength(s)))
  {
    InFlightIsTrue(t, s);
    var n := IdealLength(s);
    ChunkIsSlice(t, s);
    WrapPlus(Origin(t) + s.nxt, n);
  }

  lemma ChunkIsSlice(t: Tcb, s: Ideal)
    requires Simulates(t, s)
    ensures IdealLength(s) == 0 ==> NextChunk(t) == []
    ensures IdealLength(s) > 0 ==> NextChunk(t) == s.stream[s.nxt..s.nxt + IdealLength(s)]
  {
    InFlightIsTrue(t, s);
    if IdealLength(s) > 0 {
      SliceOfSuffix(s.stream, s.una, s.nxt - s.una, IdealLength(s));
    }
  }

  /** Sender positions do not show in any other field. */
  lemma ProcessKeepsRest(t: Tcb)
    ensures ProcessBlock(t).tcb == t.(sndNxt := ProcessBlock(t).tcb.sndNxt)
    ensures !MaySendData(t.state) && !t.state.SynSent? ==> ProcessBlock(t) == Stay(t)
  {
  }

  lemma SliceOfSuffix(x: seq<u8>, from: nat, offset: nat, n: nat)
    requires from + offset + n <= |x|
    ensures x[from..][offset..offset + n] == x[from + offset..from + offset + n]
  {
  }

  /** A retransmission repeats bytes in flight, starting at the oldest unacknowledged one. */
  lemma SimulateRetransmit(t: Tcb, s: Ideal)
    requires Simulates(t, s)
    ensures Retransmit(t).tcb == t
    ensures !t.state.Established? || s.una == s.nxt ==> Retransmit(t).out == []
    ensures t.state.Established? && s.una < s.nxt ==>
      var n := Min(s.nxt - s.una, MAX_SEGMENT);
      && |Retransmit(t).out| == 1
      && Carries(Retransmit(t).out[0], Origin(t), s.stream, Chunk(s.una, n))
      && s.una + n <= s.nxt
  {
    InFlightIsTrue(t, s);
    if t.state.Established? && s.una < s.nxt {
      SliceOfSuffix(s.stream, s.una, 0, Min(s.nxt - s.una, MAX_SEGMENT));
    }
  }

  /**
   * The acknowledgement of position `k` is judged as the unbounded comparison would, provided
   * `k` is at most SND.NXT and at most 2^31 behind SND.UNA.
   */
  lemma SimulateAck(t: Tcb, s: Ideal, p: Segment, k: int)
    requires Simulates(t, s) && t.state.Established?
    requires p.ack && p.ackNum == Wrap(Origin(t) + k)
    requires s.una - 0x8000_0000 <= k <= s.nxt
    ensures Simulates(AcceptAck(t, p), IdealAck(s, k, p.window))
  {
    NewerMeansLarger(Origin(t), k, s.una);
    if k > s.una {
      assert Discard(t.sendBuf, k - s.una) == s.stream[k..];
    }
  }

  lemma NewerMeansLarger(origin: int, k: int, una: int)
    requires -0x8000_0000 <= k - una < 0x8000_0000
    ensures Signed32(Sub32(Wrap(origin + k), Wrap(origin + una))) > 0 <==> k > una
    ensures k > una ==> Sub32(Wrap(origin + k), Wrap(origin + una)) == k - una
  {
    SubOfWraps(origin, k, una);
  }

  /** The payload half does not touch the send side. */
  lemma SimulatePayload(t: Tcb, s: Ideal, p: Segment, dirty: bool)
    requires Simulates(t, s)
    ensures Simulates(AcceptPayload(t, p, dirty).tcb, s)
    ensures forall seg | seg in AcceptPayload(t, p, dirty).out :: seg.payload == []
  {
  }

  /**
   * For an acknowledged position of any kind: the code advances SND.UNA if and only if the
   * distance modulo 2^32 lies strictly between 0 and 2^31.
   */
  lemma AckAdvancesExactlyWhen(t: Tcb, s: Ideal, p: Segment, k: int)
    requires Simulates(t, s)
    requires p.ack && p.ackNum == Wrap(Origin(t) + k)
    ensures AcceptAck(t, p).sndUna != t.sndUna <==> 0 < (k - s.una) % 0x1_0000_0000 < 0x8000_0000
  {
    SignedTest(Origin(t), k, s.una);
    SubOfWraps(Origin(t), k, s.una);
  }

  /**
   * The handler does not reject an acknowledgement above SND.NXT. For a position of any kind,
   * the computed in-flight count is still at most a full buffer afterwards if and only if the
   * position does not lie more than what is in flight and less than 2^31 above SND.UNA.
   */
  lemma InFlightSurvivesExactlyWhen(t: Tcb, s: Ideal, p: Segment, k: int)
    requires Simulates(t, s) && t.state.Established?
    requires p.ack && p.ackNum == Wrap(Origin(t) + k)
    ensures InFlight(AcceptAck(t, p)) <= CAPACITY <==> !(s.nxt - s.una < (k - s.una) % 0x1_0000_0000 < 0x8000_0000)
  {
    var d := (k - s.una) % 0x1_0000_0000;
    InFlightIsTrue(t, s);
    AckJump(t, s, p, k, d);
    if 0 < d < 0x8000_0000 {
      SubOfWraps(Origin(t), s.nxt, s.una + d);
      if d > s.nxt - s.una { FarBehind(s.nxt - s.una - d); }
    }
  }

  /** Where an acknowledgement `d` above SND.UNA, modulo 2^32, puts SND.UNA. */
  lemma AckJump(t: Tcb, s: Ideal, p: Segment, k: int, d: int)
    requires Simulates(t, s) && p.ack && p.ackNum == Wrap(Origin(t) + k)
    requires d == (k - s.una) % 0x1_0000_0000
    ensures AcceptAck(t, p).sndNxt == t.sndNxt
    ensures AcceptAck(t, p).sndUna == if 0 < d < 0x8000_0000 then Wrap(Origin(t) + (s.una + d)) else t.sndUna
  {
    SubOfWraps(Origin(t), k, s.una);
    SamePosition(Origin(t), k, s.una, d);
  }

  lemma SamePosition(origin: int, k: int, una: int, d: int)
    requires d == (k - una) % 0x1_0000_0000
    ensures Wrap(origin + k) == Wrap(origin + (una + d))
  {
    var q := (k - una) / 0x1_0000_0000;
    assert origin + k == origin + (una + d) + q * 0x1_0000_0000;
  }

  lemma FarBehind(d: int)
    requires -0x8000_0000 < d < 0
    ensures Wrap(d) > CAPACITY
  {
  }

  // ------------------------------------------------------- FIN and close

  /** A FIN in ESTABLISHED sets SND.NXT from its ACK field, whatever has been acknowledged. */
  ghost function IdealFin(s: Ideal, p: Segment, k: int): Ideal {
    if p.ack then s.(nxt := k, wnd := p.window) else s
  }

  lemma SimulateFin(t: Tcb, s: Ideal, p: Segment, k: int)
    requires Simulates(t, s) && t.state.Established? && p.fin
    requires p.ack ==> p.ackNum == Wrap(Origin(t) + k) && s.una - 0x8000_0000 <= k <= s.nxt
    ensures HandleEstablished(t, p).tcb.state.CloseWait?
    ensures Simulates(HandleEstablished(t, p).tcb, IdealFin(s, p, k))
  {
  }

  /**
   * A FIN queues nothing. Work is left behind in CLOSE_WAIT, where nothing arrives that could
   * queue it, exactly when the acknowledged position has unsent data after it and an open
   * window.
   */
  lemma FinLeavesWorkExactlyWhen(t: Tcb, s: Ideal, p: Segment, k: int)
    requires Simulates(t, s) && t.state.Established? && p.fin
    requires p.ack ==> p.ackNum == Wrap(Origin(t) + k) && s.una - 0x8000_0000 <= k <= s.nxt
    ensures var r, s' := Receive(t, p), IdealFin(s, p, k);
      && r.tcb.state.CloseWait? && !r.dirty
      && (WantsToSend(r.tcb) <==> s.una <= s'.nxt < |s.stream| && s'.nxt < s.una + s'.wnd)
  {
    SimulateFin(t, s, p, k);
    InFlightIsTrue(Receive(t, p).tcb, IdealFin(s, p, k));
  }

  /** The position after a close: the flushed data and the FIN. */
  ghost function IdealClose(s: Ideal): Ideal
    requires Coherent(s)
  {
    s.(nxt := s.nxt + IdealLength(s) + 1)
  }

  lemma SimulateClose(t: Tcb, s: Ideal)
    requires Simulates(t, s) && Unclosed(t.state)
    ensures Simulates(CloseConnection(t).tcb, IdealClose(s))
    ensures CloseConnection(t).tcb.state == if t.state.Established? then FinWait1 else LastAck
    ensures var out := CloseConnection(t).out;
      && out != [] && out[..|out| - 1] == ProcessBlock(t).out
      && out[|out| - 1].fin && out[|out| - 1].payload == []
      && out[|out| - 1].seqNum == Wrap(Origin(t) + s.nxt + IdealLength(s))
  {
    SimulateProcess(t, s);
    ProcessKeepsRest(t);
    CloseIsFlushAndFin(t);
    FinFollows(t, s, ProcessBlock(t), CloseConnection(t));
  }

  /** A FIN behind the flushed segment: its number, and where it leaves SND.NXT. */
  lemma FinFollows(t: Tcb, s: Ideal, flushed: Step, r: Step)
    requires Coherent(s) && Unclosed(t.state) && Simulates(flushed.tcb, IdealProcess(s))
    requires flushed.tcb == t.(sndNxt := flushed.tcb.sndNxt)
    requires r.out == flushed.out + [Control(r.tcb, false, true, false, true, flushed.tcb.sndNxt, t.rcvNxt)]
    requires r.tcb.state == if t.state.Established? then FinWait1 else LastAck
    requires r.tcb == flushed.tcb.(state := r.tcb.state, recvWoken := true, sendWoken := true,
                                   sndNxt := Wrap(flushed.tcb.sndNxt + 1))
    ensures Simulates(r.tcb, IdealClose(s))
    ensures r.out != [] && r.out[..|r.out| - 1] == flushed.out
    ensures var fin := r.out[|r.out| - 1];
      fin.fin && fin.payload == [] && fin.seqNum == Wrap(Origin(t) + s.nxt + IdealLength(s))
  {
    OnePast(flushed.tcb, IdealProcess(s), r.tcb);
  }

  /** SND.NXT moves over the FIN. */
  lemma OnePast(t: Tcb, s: Ideal, t': Tcb)
    requires Simulates(t, s) && Unclosed(t.state) && (t'.state.FinWait1? || t'.state.LastAck?)
    requires t' == t.(state := t'.state, recvWoken := true, sendWoken := true, sndNxt := Wrap(t.sndNxt + 1))
    ensures Simulates(t', s.(nxt := s.nxt + 1))
  {
    WrapPlus(Origin(t) + s.nxt, 1);
  }

  lemma CloseIsFlushAndFin(t: Tcb)
    requires Unclosed(t.state)
    ensures var flushed, r := ProcessBlock(t), CloseConnection(t);
      && r.out == flushed.out + [Control(r.tcb, false, true, false, true, flushed.tcb.sndNxt, t.rcvNxt)]
      && r.tcb == flushed.tcb.(state := if t.state.Established? then FinWait1 else LastAck, recvWoken := true,
                               sendWoken := true, sndNxt := Wrap(flushed.tcb.sndNxt + 1))
  {
  }

  // ------------------------------------------------------- whole runs under loss

  /**
   * What can happen to a sender after the handshake. `Arrive` is any segment the network
   * delivers, late, duplicated or reordered; `k` is the stream position it acknowledges.
   */
  datatype Event =
    | AppSend(data: seq<u8>)
    | AppRecv(limit: nat)
    | AppClose
    | Daemon
    | Timeout
    | Arrive(p: Segment, k: int)

  ghost function IdealStep(s: Ideal, state: State, e: Event): Ideal
    requires Coherent(s)
  {
    match e
    case AppSend(data) => IdealSend(s, data)
    case AppRecv(_) => s
    case AppClose => if Unclosed(state) then IdealClose(s) else s
    case Daemon => if MaySendData(state) then IdealProcess(s) else s
    case Timeout => s
    case Arrive(p, k) =>
      if state.Established? then
        if p.fin then IdealFin(s, p, k) else if p.ack then IdealAck(s, k, p.window) else s
      else if state.FinWait2? && p.fin && p.ack then s.(nxt := k)
      else s
  }

  function TcbStep(t: Tcb, e: Event): Step {
    match e
    case AppSend(data) => Stay(Send(t, data))
    case AppRecv(limit) => Stay(Recv(t, limit))
    case AppClose => CloseConnection(t)
    case Daemon => ProcessBlock(t)
    case Timeout => Retransmit(t)
    case Arrive(p, _) => Receive(t, p)
  }

  /** The hypothesis on the peer and the network, where an ACK number moves the sender. */
  ghost predicate Admissible(s: Ideal, origin: int, state: State, e: Event) {
    e.Arrive? && e.p.ack && (state.Established? || (state.FinWait2? && e.p.fin)) ==>
      e.p.ackNum == Wrap(origin + e.k) && s.una - 0x8000_0000 <= e.k <= s.nxt
  }

  ghost predicate AdmissibleRun(t: Tcb, s: Ideal, events: seq<Event>)
    decreases |events|
  {
    Coherent(s) &&
    (events != [] ==>
       && Admissible(s, Origin(t), t.state, events[0])
       && AdmissibleRun(TcbStep(t, events[0]).tcb, IdealStep(s, t.state, events[0]), events[1..]))
  }

  ghost function IdealRun(t: Tcb, s: Ideal, events: seq<Event>): Ideal
    requires AdmissibleRun(t, s, events)
    decreases |events|
  {
    if events == [] then s
    else IdealRun(TcbStep(t, events[0]).tcb, IdealStep(s, t.state, events[0]), events[1..])
  }

  /** The control block after a run, and everything it put on the wire. */
  function TcbRun(t: Tcb, events: seq<Event>): (Tcb, seq<Segment>)
    decreases |events|
  {
    if events == [] then (t, [])
    else
      var step := TcbStep(t, events[0]);
      var rest := TcbRun(step.tcb, events[1..]);
      (rest.0, step.out + rest.1)
  }

  /** A segment is aligned when it is empty or carries the stream bytes its SEQ names. */
  ghost predicate Aligned(seg: Segment, origin: int, stream: seq<u8>) {
    seg.payload == [] || exists c :: Carries(seg, origin, stream, c)
  }

  lemma SimulateArrival(t: Tcb, s: Ideal, p: Segment, k: int)
    requires Simulates(t, s) && Admissible(s, Origin(t), t.state, Arrive(p, k))
    ensures Simulates(Receive(t, p).tcb, IdealStep(s, t.state, Arrive(p, k)))
    ensures Receive(t, p).tcb.iss == t.iss
    ensures forall seg | seg in Receive(t, p).out :: seg.payload == []
  {
    if !t.state.Established? {
      SimulateLateArrival(t, s, p, k);
    } else if p.fin {
      SimulateFin(t, s, p, k);
    } else {
      if p.ack { SimulateAck(t, s, p, k); }
      SimulatePayload(AcceptAck(t, p), IdealStep(s, t.state, Arrive(p, k)), p, p.ack && WantsToSend(AcceptAck(t, p)));
    }
  }

  /** After ESTABLISHED only a FIN in FIN_WAIT_2 moves the send side. */
  lemma SimulateLateArrival(t: Tcb, s: Ideal, p: Segment, k: int)
    requires Simulates(t, s) && !t.state.Established? && Admissible(s, Origin(t), t.state, Arrive(p, k))
    ensures Simulates(Receive(t, p).tcb, IdealStep(s, t.state, Arrive(p, k)))
    ensures Receive(t, p).tcb.iss == t.iss
    ensures forall seg | seg in Receive(t, p).out :: seg.payload == []
  {
    LateArrivalFrame(t, p);
  }

  lemma LateArrivalFrame(t: Tcb, p: Segment)
    requires !t.state.Established? && !t.state.SynSent? && !t.state.SynReceived?
    ensures var t' := Receive(t, p).tcb;
      && t' == t.(state := t'.state, rcvNxt := t'.rcvNxt, sndNxt := t'.sndNxt)
      && (t'.state != t.state ==> t'.state.FinWait2? || t'.state.Closing? || t'.state.Closed?)
      && t'.sndNxt == (if t.state.FinWait2? && p.fin && p.ack then p.ackNum else t.sndNxt)
    ensures forall seg | seg in Receive(t, p).out :: seg.payload == []
  {
  }

  lemma SimulateAppClose(t: Tcb, s: Ideal)
    requires Simulates(t, s)
    ensures Simulates(CloseConnection(t).tcb, IdealStep(s, t.state, AppClose))
    ensures CloseConnection(t).tcb.iss == t.iss
    ensures forall seg | seg in CloseConnection(t).out :: Aligned(seg, Origin(t), s.stream)
  {
    if Unclosed(t.state) {
      SimulateClose(t, s);
      FlushAligned(t, s);
      ProcessKeepsRest(t);
      CloseIsFlushAndFin(t);
    } else {
      CloseElsewhere(t);
    }
  }

  lemma FlushAligned(t: Tcb, s: Ideal)
    requires Simulates(t, s) && MaySendData(t.state)
    ensures forall seg | seg in ProcessBlock(t).out :: Aligned(seg, Origin(t), s.stream)
  {
    SimulateProcess(t, s);
  }

  lemma CloseElsewhere(t: Tcb)
    requires !Unclosed(t.state)
    ensures CloseConnection(t).tcb == t.(state := LastAck, recvWoken := true, sendWoken := true)
    ensures CloseConnection(t).out == []
  {
  }

  lemma SimulateStep(t: Tcb, s: Ideal, e: Event)
    requires Simulates(t, s) && Admissible(s, Origin(t), t.state, e)
    ensures Simulates(TcbStep(t, e).tcb, IdealStep(s, t.state, e))
    ensures Origin(TcbStep(t, e).tcb) == Origin(t)
    ensures forall seg | seg in TcbStep(t, e).out :: Aligned(seg, Origin(t), s.stream)
  {
    match e
    case AppSend(data) => SimulateSend(t, s, data);
    case AppRecv(_) =>
    case AppClose => SimulateAppClose(t, s);
    case Daemon =>
      ProcessKeepsRest(t);
      if MaySendData(t.state) {
        SimulateProcess(t, s);
        FlushAligned(t, s);
      }
    case Timeout => SimulateRetransmit(t, s);
    case Arrive(p, k) => SimulateArrival(t, s, p, k);
  }

  /** The stream only grows at its end, so what was aligned stays aligned. */
  lemma AlignedGrows(seg: Segment, origin: int, stream: seq<u8>, longer: seq<u8>)
    requires Aligned(seg, origin, stream) && stream <= longer
    ensures Aligned(seg, origin, longer)
  {
    if seg.payload != [] {
      var c :| Carries(seg, origin, stream, c);
      CarriesGrows(seg, origin, stream, longer, c);
    }
  }

  lemma CarriesGrows(seg: Segment, origin: int, stream: seq<u8>, longer: seq<u8>, c: Chunk)
    requires Carries(seg, origin, stream, c) && stream <= longer
    ensures Carries(seg, origin, longer, c)
  {
    assert longer[c.pos..c.pos + c.len] == stream[c.pos..c.pos + c.len];
  }

  lemma {:induction false} StreamGrows(t: Tcb, s: Ideal, events: seq<Event>)
    requires AdmissibleRun(t, s, events)
    ensures s.stream <= IdealRun(t, s, events).stream
    decreases |events|
  {
    if events != [] {
      StreamGrows(TcbStep(t, events[0]).tcb, IdealStep(s, t.state, events[0]), events[1..]);
    }
  }

  /**
   * For every run after the handshake, through data transfer, FINs, closes and whatever comes
   * after them, with arbitrary loss, duplication and reordering: the 32-bit control block ends
   * where the unbounded sender ends, and every segment it emitted, first transmission or
   * retransmission, carries exactly the application bytes that its sequence number names.
   */
  lemma {:induction false} EveryRunIsAligned(t: Tcb, s: Ideal, events: seq<Event>)
    requires Simulates(t, s) && AdmissibleRun(t, s, events)
    ensures Simulates(TcbRun(t, events).0, IdealRun(t, s, events))
    ensures Origin(TcbRun(t, events).0) == Origin(t)
    ensures forall seg | seg in TcbRun(t, events).1 :: Aligned(seg, Origin(t), IdealRun(t, s, events).stream)
    decreases |events|
  {
    if events != [] {
      var e := events[0];
      SimulateStep(t, s, e);
      var t', s' := TcbStep(t, e).tcb, IdealStep(s, t.state, e);
      EveryRunIsAligned(t', s', events[1..]);
      StreamGrows(t', s', events[1..]);
      var final := IdealRun(t', s', events[1..]).stream;
      forall seg | seg in TcbStep(t, e).out ensures Aligned(seg, Origin(t), final) {
        AlignedGrows(seg, Origin(t), s.stream, final);
      }
    }
  }
}

/**
 * Two ESTABLISHED endpoints over lossless FIFO channels, in every interleaving of application
 * writes and reads, daemon transmissions and deliveries: bytes are conserved end to end and
 * no payload ever exceeds the free space of the buffer it is delivered to.
 */
module Stream {
  import opened Words
  import opened ControlBlock
  import opened Sender

  /** An endpoint with the history of what its application wrote and read. */
  datatype Node = Node(tcb: Tcb, wrote: seq<u8>, read: seq<u8>)

  /** `ab` holds the segments on their way from `a` to `b`, oldest first. */
  datatype System = System(a: Node, b: Node, ab: seq<Segment>, ba: seq<Segment>)

  datatype Action =
    | Write(data: seq<u8>)
    | Transmit
    | Deliver
    | Read(limit: nat)

  // ------------------------------------------------------- the steps, taken by side a

  function Mirror(s: System): System {
    System(s.b, s.a, s.ba, s.ab)
  }

  /** An action that would wait (full or empty buffer, empty channel) leaves the state alone. */
  function StepA(s: System, act: Action): System {
    match act
    case Write(data) =>
      if SendReturns(s.a.tcb)
      then s.(a := s.a.(tcb := Send(s.a.tcb, data), wrote := s.a.wrote + Taken(s.a.tcb.sendBuf, data)))
      else s
    case Transmit =>
      var r := ProcessBlock(s.a.tcb);
      s.(a := s.a.(tcb := r.tcb), ab := s.ab + r.out)
    case Deliver =>
      if s.ba == [] then s
      else
        var r := Receive(s.a.tcb, s.ba[0]);
        s.(a := s.a.(tcb := r.tcb), ba := s.ba[1..], ab := s.ab + r.out)
    case Read(limit) =>
      if RecvReturns(s.a.tcb)
      then s.(a := s.a.(tcb := Recv(s.a.tcb, limit), read := s.a.read + Received(s.a.tcb, limit)))
      else s
  }

  datatype Side = SideA | SideB

  function Next(s: System, side: Side, act: Action): System {
    if side.SideA? then StepA(s, act) else Mirror(StepA(Mirror(s), act))
  }

  function Run(s: System, schedule: seq<(Side, Action)>): System
    decreases |schedule|
  {
    if schedule == [] then s else Run(Next(s, schedule[0].0, schedule[0].1), schedule[1..])
  }

  // ------------------------------------------------------- what is claimed

  function Payloads(channel: seq<Segment>): seq<u8> {
    if channel == [] then [] else channel[0].payload + Payloads(channel[1..])
  }

  function Unsent(t: Tcb): seq<u8> {
    if InFlight(t) <= |t.sendBuf| then t.sendBuf[InFlight(t)..] else []
  }

  /** Every byte `x` wrote is, in order, read, buffered at `y`, on the wire or still unsent. */
  ghost predicate Conserved(x: Node, y: Node, xy: seq<Segment>) {
    y.read + y.tcb.recvBuf + Payloads(xy) + Unsent(x.tcb) == x.wrote
  }

  /** The next segment for `y` fits its free space and its delivery completes. */
  ghost predicate NextFits(y: Node, xy: seq<Segment>) {
    xy != [] ==>
      && |xy[0].payload| <= CAPACITY - |y.tcb.recvBuf|
      && !Receive(y.tcb, xy[0]).blocked
      && Receive(y.tcb, xy[0]).tcb.recvBuf == y.tcb.recvBuf + xy[0].payload
  }

  // ------------------------------------------------------- the invariant

  ghost function Acked(x: Node): int {
    |x.wrote| - |x.tcb.sendBuf|
  }

  ghost function Sent(x: Node): int {
    Acked(x) + InFlight(x.tcb)
  }

  ghost function Arrived(y: Node): nat {
    |y.read| + |y.tcb.recvBuf|
  }

  /** The right edge of the window `y` offers: RCV.NXT plus free space, as a stream position. */
  ghost function Edge(y: Node): nat {
    |y.read| + CAPACITY
  }

  ghost predicate Plain(p: Segment) {
    p.ack && !p.syn && !p.rst && !p.fin
  }

  /**
   * The acknowledgements on a channel, oldest first, start at `una`, never go back, end at
   * most at `arrived`, and the window edges they carry start at `edge`, never move left and
   * end at most at `limit`.
   */
  ghost predicate AcksInOrder(channel: seq<Segment>, origin: int, una: int, edge: int, arrived: int, limit: int) {
    && una <= arrived
    && edge <= limit
    && (channel != [] ==>
          var k := una + Sub32(channel[0].ackNum, Wrap(origin + una));
          && Plain(channel[0])
          && edge <= k + channel[0].window
          && AcksInOrder(channel[1..], origin, k, k + channel[0].window, arrived, limit))
  }

  /** The send side of `x` agrees with the unbounded sender. */
  ghost predicate SendSide(x: Node) {
    && x.tcb.state.Established?
    && 0 <= Acked(x) <= Sent(x)
    && Simulates(x.tcb, Ideal(x.wrote, Acked(x), Sent(x), x.tcb.sndWnd))
    && Sent(x) <= Acked(x) + x.tcb.sndWnd
  }

  /** Everything about the direction from `x` to `y`: data on `xy`, acknowledgements on `yx`. */
  ghost predicate Flow(x: Node, y: Node, xy: seq<Segment>, yx: seq<Segment>) {
    && SendSide(x)
    && y.tcb.state.Established?
    && y.tcb.rcvNxt == Wrap(Origin(x.tcb) + Arrived(y))
    && Arrived(y) <= Sent(x)
    && y.read + y.tcb.recvBuf + Payloads(xy) == x.wrote[..Sent(x)]
    && AcksInOrder(yx, Origin(x.tcb), Acked(x), Acked(x) + x.tcb.sndWnd, Arrived(y), Edge(y))
  }

  ghost predicate Inv(s: System) {
    Flow(s.a, s.b, s.ab, s.ba) && Flow(s.b, s.a, s.ba, s.ab)
  }

  /** Where the handshake leaves two endpoints: matching numbers, empty buffers and channels. */
  ghost predicate Synchronised(s: System) {
    SynchronisedOneWay(s.a, s.b) && SynchronisedOneWay(s.b, s.a) && s.ab == [] && s.ba == []
  }

  ghost predicate SynchronisedOneWay(x: Node, y: Node) {
    && x.tcb.state.Established?
    && x.tcb.sndUna == x.tcb.sndNxt == Wrap(x.tcb.iss + 1)
    && y.tcb.rcvNxt == Wrap(x.tcb.iss + 1)
    && x.tcb.sndWnd <= CAPACITY
    && x.wrote == x.read == x.tcb.sendBuf == x.tcb.recvBuf == []
  }

  // ------------------------------------------------------- lemmas on channels

  lemma {:induction false} PayloadsAppend(channel: seq<Segment>, p: Segment)
    ensures Payloads(channel + [p]) == Payloads(channel) + p.payload
  {
    if channel == [] {
      assert Payloads([p]) == p.payload + Payloads([]);
    } else {
      PayloadsAppend(channel[1..], p);
      assert (channel + [p])[1..] == channel[1..] + [p];
    }
  }

  lemma PayloadsAppendEmpty(channel: seq<Segment>, out: seq<Segment>)
    requires |out| <= 1 && forall p | p in out :: p.payload == []
    ensures Payloads(channel + out) == Payloads(channel)
  {
    if out == [] {
      assert channel + out == channel;
    } else {
      PayloadsAppend(channel, out[0]);
      assert out == [out[0]];
    }
  }

  lemma {:induction false} AcksRelax(c: seq<Segment>, origin: int, una: int, edge: int,
                                     arrived: int, limit: int, arrived': int, limit': int)
    requires AcksInOrder(c, origin, una, edge, arrived, limit)
    requires arrived <= arrived' && limit <= limit'
    ensures AcksInOrder(c, origin, una, edge, arrived', limit')
  {
    if c != [] {
      var k := una + Sub32(c[0].ackNum, Wrap(origin + una));
      AcksRelax(c[1..], origin, k, k + c[0].window, arrived, limit, arrived', limit');
    }
  }

  /** The newest acknowledgement names all that arrived and carries the current edge. */
  lemma {:induction false} AcksAppend(c: seq<Segment>, origin: int, una: int, edge: int,
                                      arrived: int, limit: int, p: Segment)
    requires AcksInOrder(c, origin, una, edge, arrived, limit)
    requires arrived - una < 0x1_0000_0000
    requires Plain(p) && p.ackNum == Wrap(origin + arrived) && arrived + p.window == limit
    ensures AcksInOrder(c + [p], origin, una, edge, arrived, limit)
  {
    if c == [] {
      SubOfWraps(origin, arrived, una);
      assert (c + [p])[1..] == [];
      assert AcksInOrder([], origin, arrived, limit, arrived, limit);
    } else {
      var k := una + Sub32(c[0].ackNum, Wrap(origin + una));
      AcksAppend(c[1..], origin, k, k + c[0].window, arrived, limit, p);
      assert (c + [p])[1..] == c[1..] + [p];
    }
  }

  // ------------------------------------------------------- consequences of the invariant

  lemma InvImpliesConserved(x: Node, y: Node, xy: seq<Segment>, yx: seq<Segment>)
    requires Flow(x, y, xy, yx)
    ensures Conserved(x, y, xy)
  {
    InFlightIsTrue(x.tcb, Ideal(x.wrote, Acked(x), Sent(x), x.tcb.sndWnd));
    assert Unsent(x.tcb) == x.wrote[Sent(x)..];
  }

  /** Flow control: what is sent never passes the edge that the receiver offers. */
  lemma HeadFits(x: Node, y: Node, xy: seq<Segment>, yx: seq<Segment>)
    requires Flow(x, y, xy, yx) && xy != []
    ensures |xy[0].payload| <= CAPACITY - |y.tcb.recvBuf|
  {
    assert |y.read + y.tcb.recvBuf + (xy[0].payload + Payloads(xy[1..]))| == Sent(x);
  }

  lemma InvImpliesFits(x: Node, y: Node, xy: seq<Segment>, yx: seq<Segment>)
    requires Flow(x, y, xy, yx) && Flow(y, x, yx, xy)
    ensures NextFits(y, xy)
  {
    if xy != [] {
      HeadFits(x, y, xy, yx);
      PlainHead(y, x, yx, xy);
      DeliverEffect(y.tcb, xy[0]);
    }
  }

  lemma PlainHead(x: Node, y: Node, xy: seq<Segment>, yx: seq<Segment>)
    requires Flow(x, y, xy, yx) && yx != []
    ensures Plain(yx[0])
  {
  }

  lemma AckKeepsReceiveSide(t: Tcb, p: Segment)
    ensures AcceptAck(t, p).(sendBuf := t.sendBuf, sndUna := t.sndUna, sndWnd := t.sndWnd) == t
  {
  }

  // ------------------------------------------------------- every step keeps the invariant

  ghost function AsIdeal(x: Node): Ideal
    requires 0 <= Acked(x) <= Sent(x)
  {
    Ideal(x.wrote, Acked(x), Sent(x), x.tcb.sndWnd)
  }

  /** `y` acknowledges, with any segment it emits, all that arrived and its current edge. */
  lemma OwnAckIsNewest(x: Node, y: Node, xy: seq<Segment>, yx: seq<Segment>, p: Segment)
    requires Flow(x, y, xy, yx)
    requires Plain(p) && p.ackNum == y.tcb.rcvNxt && p.window == FreeWindow(y.tcb)
    ensures AcksInOrder(yx + [p], Origin(x.tcb), Acked(x), Acked(x) + x.tcb.sndWnd, Arrived(y), Edge(y))
  {
    AcksAppend(yx, Origin(x.tcb), Acked(x), Acked(x) + x.tcb.sndWnd, Arrived(y), Edge(y), p);
  }

  lemma WriteKeepsFlow(x: Node, y: Node, xy: seq<Segment>, yx: seq<Segment>, data: seq<u8>, x': Node)
    requires Flow(x, y, xy, yx)
    requires x' == x.(tcb := Send(x.tcb, data), wrote := x.wrote + Taken(x.tcb.sendBuf, data))
    ensures Flow(x', y, xy, yx)
  {
    SimulateSend(x.tcb, AsIdeal(x), data);
    assert x'.wrote[..Sent(x)] == x.wrote[..Sent(x)];
  }

  lemma TransmitKeepsSendSide(x: Node, x': Node)
    requires SendSide(x)
    requires x' == x.(tcb := ProcessBlock(x.tcb).tcb)
    ensures SendSide(x') && Acked(x') == Acked(x) && Sent(x') == Sent(x) + IdealLength(AsIdeal(x))
    ensures x'.tcb == x.tcb.(sndNxt := x'.tcb.sndNxt)
  {
    SimulateProcess(x.tcb, AsIdeal(x));
    InFlightIsTrue(x'.tcb, IdealProcess(AsIdeal(x)));
  }

  lemma TransmitAddsPayload(x: Node, xy: seq<Segment>)
    requires SendSide(x)
    ensures var n := IdealLength(AsIdeal(x));
      Payloads(xy + ProcessBlock(x.tcb).out) == Payloads(xy) + x.wrote[Sent(x)..Sent(x) + n]
  {
    SimulateProcess(x.tcb, AsIdeal(x));
    var out := ProcessBlock(x.tcb).out;
    if IdealLength(AsIdeal(x)) == 0 {
      assert xy + out == xy;
    } else {
      PayloadsAppend(xy, out[0]);
      assert out == [out[0]];
    }
  }

  /** `x` has put the next `n` bytes of its stream on the channel. */
  lemma ExtendFlow(x: Node, y: Node, xy: seq<Segment>, yx: seq<Segment>, x': Node, xy': seq<Segment>, n: nat)
    requires Flow(x, y, xy, yx) && SendSide(x')
    requires x'.wrote == x.wrote && Origin(x'.tcb) == Origin(x.tcb) && x'.tcb.sndWnd == x.tcb.sndWnd
    requires Acked(x') == Acked(x) && Sent(x') == Sent(x) + n <= |x.wrote|
    requires Payloads(xy') == Payloads(xy) + x.wrote[Sent(x)..Sent(x) + n]
    ensures Flow(x', y, xy', yx)
  {
    assert 0 <= Sent(x) <= Sent(x');
    PrefixGrows(y.read + y.tcb.recvBuf, Payloads(xy), x.wrote, Sent(x), n);
    OnTheWire(x, y, xy, yx, x', xy');
  }

  /** The parts of the flow, put together again. */
  lemma OnTheWire(x: Node, y: Node, xy: seq<Segment>, yx: seq<Segment>, x': Node, xy': seq<Segment>)
    requires SendSide(x') && y.tcb.state.Established?
    requires y.tcb.rcvNxt == Wrap(Origin(x.tcb) + Arrived(y)) && Arrived(y) <= Sent(x')
    requires AcksInOrder(yx, Origin(x.tcb), Acked(x), Acked(x) + x.tcb.sndWnd, Arrived(y), Edge(y))
    requires Origin(x'.tcb) == Origin(x.tcb) && Acked(x') == Acked(x) && x'.tcb.sndWnd == x.tcb.sndWnd
    requires Sent(x') <= |x'.wrote| && y.read + y.tcb.recvBuf + Payloads(xy') == x'.wrote[..Sent(x')]
    ensures Flow(x', y, xy', yx)
  {
  }

  lemma PrefixGrows(got: seq<u8>, wire: seq<u8>, stream: seq<u8>, sent: nat, n: nat)
    requires sent + n <= |stream| && got + wire == stream[..sent]
    ensures got + (wire + stream[sent..sent + n]) == stream[..sent + n]
  {
    assert got + (wire + stream[sent..sent + n]) == (got + wire) + stream[sent..sent + n];
  }

  lemma TransmitKeepsFlow(x: Node, y: Node, xy: seq<Segment>, yx: seq<Segment>, x': Node)
    requires Flow(x, y, xy, yx)
    requires x' == x.(tcb := ProcessBlock(x.tcb).tcb)
    ensures Flow(x', y, xy + ProcessBlock(x.tcb).out, yx)
  {
    TransmitKeepsSendSide(x, x');
    TransmitAddsPayload(x, xy);
    ExtendFlow(x, y, xy, yx, x', xy + ProcessBlock(x.tcb).out, IdealLength(AsIdeal(x)));
  }

  /** A transmission emits nothing or one data segment that acknowledges all that arrived. */
  lemma TransmitEmits(t: Tcb)
    requires t.state.Established?
    ensures var r := ProcessBlock(t);
      && r.tcb.(sndNxt := t.sndNxt) == t
      && (r.out == [] || (|r.out| == 1 && r.out == [DataSegment(t, NextChunk(t), t.sndNxt)]))
  {
  }

  /** The segments a transmission adds are acknowledgements for the opposite direction. */
  lemma TransmitKeepsReverse(x: Node, y: Node, xy: seq<Segment>, yx: seq<Segment>, y': Node)
    requires Flow(x, y, xy, yx)
    requires y' == y.(tcb := ProcessBlock(y.tcb).tcb)
    ensures Flow(x, y', xy, yx + ProcessBlock(y.tcb).out)
  {
    TransmitEmits(y.tcb);
    var out := ProcessBlock(y.tcb).out;
    if out == [] {
      assert yx + out == yx;
    } else {
      OwnAckIsNewest(x, y, xy, yx, out[0]);
    }
  }

  /** The position an acknowledgement names, decoded relative to SND.UNA. */
  ghost function Position(x: Node, p: Segment): int {
    Acked(x) + Sub32(p.ackNum, Wrap(Origin(x.tcb) + Acked(x)))
  }

  lemma PositionDecodes(x: Node, p: Segment)
    ensures p.ackNum == Wrap(Origin(x.tcb) + Position(x, p))
  {
    WrapPlus(Origin(x.tcb) + Acked(x), Sub32(p.ackNum, Wrap(Origin(x.tcb) + Acked(x))));
    WrapPlus(p.ackNum - Wrap(Origin(x.tcb) + Acked(x)), Wrap(Origin(x.tcb) + Acked(x)));
  }

  lemma AckMovesSendSide(x: Node, p: Segment, x': Node)
    requires SendSide(x) && p.ack
    requires Position(x, p) <= Sent(x) <= Position(x, p) + p.window
    requires x' == x.(tcb := AcceptAck(x.tcb, p))
    ensures SendSide(x') && Sent(x') == Sent(x) && Acked(x') == Position(x, p)
    ensures x'.tcb.sndWnd == p.window && Origin(x'.tcb) == Origin(x.tcb)
  {
    PositionDecodes(x, p);
    var k := Position(x, p);
    SimulateAck(x.tcb, AsIdeal(x), p, k);
    InFlightIsTrue(x'.tcb, IdealAck(AsIdeal(x), k, p.window));
  }

  /** Taking in the oldest acknowledgement moves the sender along its channel. */
  lemma AckKeepsSendSide(x: Node, y: Node, xy: seq<Segment>, yx: seq<Segment>, x': Node)
    requires Flow(x, y, xy, yx) && yx != []
    requires x' == x.(tcb := AcceptAck(x.tcb, yx[0]))
    ensures SendSide(x') && Sent(x') == Sent(x) && Origin(x'.tcb) == Origin(x.tcb)
    ensures AcksInOrder(yx[1..], Origin(x.tcb), Acked(x'), Acked(x') + x'.tcb.sndWnd, Arrived(y), Edge(y))
  {
    var p, k := yx[0], Position(x, yx[0]);
    assert AcksInOrder(yx[1..], Origin(x.tcb), k, k + p.window, Arrived(y), Edge(y));
    AckMovesSendSide(x, p, x');
  }

  /** The flow from `x` depends only on the send side of `x`. */
  lemma AdvanceFlow(x: Node, y: Node, xy: seq<Segment>, yx: seq<Segment>, x': Node, xy': seq<Segment>, yx': seq<Segment>)
    requires Flow(x, y, xy, yx) && SendSide(x')
    requires x'.wrote == x.wrote && Origin(x'.tcb) == Origin(x.tcb) && Sent(x') == Sent(x)
    requires Payloads(xy') == Payloads(xy)
    requires AcksInOrder(yx', Origin(x.tcb), Acked(x'), Acked(x') + x'.tcb.sndWnd, Arrived(y), Edge(y))
    ensures Flow(x', y, xy', yx')
  {
  }

  lemma PayloadKeepsSendSide(x: Node, p: Segment, dirty: bool, x': Node)
    requires SendSide(x) && x' == x.(tcb := AcceptPayload(x.tcb, p, dirty).tcb)
    ensures SendSide(x') && Acked(x') == Acked(x) && Sent(x') == Sent(x)
    ensures x'.tcb.sndWnd == x.tcb.sndWnd && Origin(x'.tcb) == Origin(x.tcb)
  {
    PayloadKeepsSendFields(x.tcb, p, dirty);
    SendSideFrame(x, x');
  }

  /** The send side does not depend on what has arrived. */
  lemma SendSideFrame(x: Node, x': Node)
    requires SendSide(x) && x'.wrote == x.wrote
    requires x'.tcb.(rcvNxt := x.tcb.rcvNxt, recvBuf := x.tcb.recvBuf) == x.tcb
    ensures SendSide(x') && Acked(x') == Acked(x) && Sent(x') == Sent(x)
    ensures x'.tcb.sndWnd == x.tcb.sndWnd && Origin(x'.tcb) == Origin(x.tcb)
  {
    assert InFlight(x'.tcb) == InFlight(x.tcb);
  }

  lemma DeliverKeepsFlow(x: Node, y: Node, xy: seq<Segment>, yx: seq<Segment>, x': Node)
    requires Flow(x, y, xy, yx) && yx != []
    requires x' == x.(tcb := HandleEstablished(x.tcb, yx[0]).tcb)
    ensures Flow(x', y, xy + HandleEstablished(x.tcb, yx[0]).out, yx[1..])
  {
    var p := yx[0];
    var mid := x.(tcb := AcceptAck(x.tcb, p));
    var dirty := p.ack && WantsToSend(mid.tcb);
    AckKeepsSendSide(x, y, xy, yx, mid);
    PlainHead(x, y, xy, yx);
    PayloadKeepsSendSide(mid, p, dirty, x');
    PayloadKeepsSendFields(mid.tcb, p, dirty);
    var xy' := xy + AcceptPayload(mid.tcb, p, dirty).out;
    PayloadsAppendEmpty(xy, AcceptPayload(mid.tcb, p, dirty).out);
    AdvanceFlow(x, y, xy, yx, x', xy', yx[1..]);
  }

  lemma PayloadKeepsSendFields(t: Tcb, p: Segment, dirty: bool)
    ensures var r := AcceptPayload(t, p, dirty);
      && r.tcb.(rcvNxt := t.rcvNxt, recvBuf := t.recvBuf) == t
      && |r.out| <= 1
      && forall seg | seg in r.out :: seg.payload == []
  {
  }

  /** What a delivery that fits does to the receive side. */
  lemma DeliverEffect(t: Tcb, p: Segment)
    requires Plain(p) && |p.payload| <= CAPACITY - |t.recvBuf|
    ensures var r := HandleEstablished(t, p);
      && !r.blocked
      && r.tcb.recvBuf == t.recvBuf + p.payload
      && r.tcb.rcvNxt == Wrap(t.rcvNxt + |p.payload|)
      && r.tcb.state == t.state
      && (p.payload == [] ==> r.out == [])
      && (p.payload != [] ==> |r.out| == 1 && r.out == [AckOf(r.tcb)])
  {
    AckKeepsReceiveSide(t, p);
    WrapSmall(t.rcvNxt);
    assert p.payload[..|p.payload|] == p.payload;
  }

  /**
   * Outside these systems the handler does not look at the free space. A payload is stored
   * whole if and only if it fits; otherwise RCV.NXT counts it all the same. The daemon blocks
   * if and only if there is no room at all and nobody has woken the buffer.
   */
  lemma PayloadStoredExactlyWhen(t: Tcb, p: Segment)
    requires t.state.Established? && !p.fin
    ensures var r := Receive(t, p);
      && r.tcb.rcvNxt == Wrap(t.rcvNxt + |p.payload|)
      && (r.tcb.recvBuf == t.recvBuf + p.payload <==> |p.payload| <= CAPACITY - |t.recvBuf|)
      && (r.blocked <==> p.payload != [] && |t.recvBuf| == CAPACITY && !t.recvWoken)
  {
    AckKeepsReceiveSide(t, p);
    WrapSmall(t.rcvNxt);
    var free := CAPACITY - |t.recvBuf|;
    if |p.payload| <= free {
      assert p.payload[..|p.payload|] == p.payload;
    } else {
      assert |t.recvBuf + p.payload| > CAPACITY;
    }
  }

  /** `y` has taken the oldest payload off the channel. */
  lemma ArrivalKeepsFlow(x: Node, y: Node, xy: seq<Segment>, yx: seq<Segment>, y': Node)
    requires Flow(x, y, xy, yx) && xy != []
    requires y'.read == y.read && y'.tcb.state.Established?
    requires y'.tcb.recvBuf == y.tcb.recvBuf + xy[0].payload
    requires y'.tcb.rcvNxt == Wrap(y.tcb.rcvNxt + |xy[0].payload|)
    ensures Flow(x, y', xy[1..], yx)
  {
    var p := xy[0];
    var r := y.read + y.tcb.recvBuf;
    assert r + Payloads(xy) == (r + p.payload) + Payloads(xy[1..]);
    assert y'.read + y'.tcb.recvBuf == r + p.payload;
    assert |x.wrote[..Sent(x)]| == Sent(x);
    WrapPlus(Origin(x.tcb) + Arrived(y), |p.payload|);
    AcksRelax(yx, Origin(x.tcb), Acked(x), Acked(x) + x.tcb.sndWnd, Arrived(y), Edge(y), Arrived(y'), Edge(y'));
  }

  lemma DeliverKeepsReverse(x: Node, y: Node, xy: seq<Segment>, yx: seq<Segment>, y': Node)
    requires Flow(x, y, xy, yx) && xy != [] && Plain(xy[0])
    requires y' == y.(tcb := HandleEstablished(y.tcb, xy[0]).tcb)
    ensures Flow(x, y', xy[1..], yx + HandleEstablished(y.tcb, xy[0]).out)
  {
    HeadFits(x, y, xy, yx);
    DeliverEffect(y.tcb, xy[0]);
    ArrivalKeepsFlow(x, y, xy, yx, y');
    var out := HandleEstablished(y.tcb, xy[0]).out;
    if xy[0].payload == [] {
      assert yx + out == yx;
    } else {
      OwnAckIsNewest(x, y', xy[1..], yx, AckOf(y'.tcb));
    }
  }

  /** Reading moves bytes from the buffer to the application. */
  lemma ReadMoves(y: Node, limit: nat, y': Node)
    requires y' == y.(tcb := Recv(y.tcb, limit), read := y.read + Received(y.tcb, limit))
    ensures y'.read + y'.tcb.recvBuf == y.read + y.tcb.recvBuf
    ensures y'.tcb.rcvNxt == y.tcb.rcvNxt && y'.tcb.state == y.tcb.state && |y'.read| >= |y.read|
  {
  }

  /** The flow towards `y` survives when the edge of its window moves right. */
  lemma EdgeMovesRight(x: Node, y: Node, xy: seq<Segment>, yx: seq<Segment>, y': Node)
    requires Flow(x, y, xy, yx)
    requires y'.read + y'.tcb.recvBuf == y.read + y.tcb.recvBuf && |y'.read| >= |y.read|
    requires y'.tcb.rcvNxt == y.tcb.rcvNxt && y'.tcb.state == y.tcb.state
    ensures Flow(x, y', xy, yx)
  {
    assert Arrived(y') == |y'.read + y'.tcb.recvBuf| == Arrived(y);
    AcksRelax(yx, Origin(x.tcb), Acked(x), Acked(x) + x.tcb.sndWnd, Arrived(y), Edge(y), Arrived(y'), Edge(y'));
  }

  lemma ReadKeepsFlow(x: Node, y: Node, xy: seq<Segment>, yx: seq<Segment>, limit: nat, y': Node)
    requires Flow(x, y, xy, yx)
    requires y' == y.(tcb := Recv(y.tcb, limit), read := y.read + Received(y.tcb, limit))
    ensures Flow(x, y', xy, yx)
  {
    ReadMoves(y, limit, y');
    EdgeMovesRight(x, y, xy, yx, y');
  }

  lemma TransmitKeepsInv(s: System)
    requires Inv(s)
    ensures Inv(StepA(s, Transmit))
  {
    var s' := StepA(s, Transmit);
    TransmitKeepsFlow(s.a, s.b, s.ab, s.ba, s'.a);
    TransmitKeepsReverse(s.b, s.a, s.ba, s.ab, s'.a);
  }

  lemma DeliverKeepsInv(s: System)
    requires Inv(s)
    ensures Inv(StepA(s, Deliver))
  {
    if s.ba != [] {
      var s' := StepA(s, Deliver);
      PlainHead(s.a, s.b, s.ab, s.ba);
      DeliverKeepsFlow(s.a, s.b, s.ab, s.ba, s'.a);
      DeliverKeepsReverse(s.b, s.a, s.ba, s.ab, s'.a);
    }
  }

  /** The flow towards `y` depends only on what `y` has received and read. */
  lemma ReceiverFrame(x: Node, y: Node, xy: seq<Segment>, yx: seq<Segment>, y': Node)
    requires Flow(x, y, xy, yx)
    requires y'.read == y.read && y'.tcb.recvBuf == y.tcb.recvBuf
    requires y'.tcb.rcvNxt == y.tcb.rcvNxt && y'.tcb.state == y.tcb.state
    ensures Flow(x, y', xy, yx)
  {
    assert Arrived(y') == Arrived(y) && Edge(y') == Edge(y);
  }

  /** The flow from `x` does not depend on what `x` has received and read. */
  lemma SenderFrame(x: Node, y: Node, xy: seq<Segment>, yx: seq<Segment>, x': Node)
    requires Flow(x, y, xy, yx)
    requires x'.wrote == x.wrote && x'.tcb.(recvBuf := x.tcb.recvBuf) == x.tcb
    ensures Flow(x', y, xy, yx)
  {
    SendSideFrame(x, x');
    AdvanceFlow(x, y, xy, yx, x', xy, yx);
  }

  lemma WriteKeepsInv(s: System, data: seq<u8>)
    requires Inv(s)
    ensures Inv(StepA(s, Write(data)))
  {
    var s' := StepA(s, Write(data));
    if SendReturns(s.a.tcb) {
      WriteKeepsFlow(s.a, s.b, s.ab, s.ba, data, s'.a);
      ReceiverFrame(s.b, s.a, s.ba, s.ab, s'.a);
    }
  }

  lemma ReadKeepsInv(s: System, limit: nat)
    requires Inv(s)
    ensures Inv(StepA(s, Read(limit)))
  {
    var s' := StepA(s, Read(limit));
    if RecvReturns(s.a.tcb) {
      ReadKeepsFlow(s.b, s.a, s.ba, s.ab, limit, s'.a);
      SenderFrame(s.a, s.b, s.ab, s.ba, s'.a);
    }
  }

  lemma StepAKeepsInv(s: System, act: Action)
    requires Inv(s)
    ensures Inv(StepA(s, act))
  {
    match act
    case Write(data) => WriteKeepsInv(s, data);
    case Transmit => TransmitKeepsInv(s);
    case Deliver => DeliverKeepsInv(s);
    case Read(limit) => ReadKeepsInv(s, limit);
  }

  lemma NextKeepsInv(s: System, side: Side, act: Action)
    requires Inv(s)
    ensures Inv(Next(s, side, act))
  {
    StepAKeepsInv(if side.SideA? then s else Mirror(s), act);
  }

  lemma {:induction false} RunKeepsInv(s: System, schedule: seq<(Side, Action)>)
    requires Inv(s)
    ensures Inv(Run(s, schedule))
    decreases |schedule|
  {
    if schedule != [] {
      NextKeepsInv(s, schedule[0].0, schedule[0].1);
      RunKeepsInv(Next(s, schedule[0].0, schedule[0].1), schedule[1..]);
    }
  }

  lemma SynchronisedImpliesFlow(x: Node, y: Node)
    requires SynchronisedOneWay(x, y) && SynchronisedOneWay(y, x)
    ensures Flow(x, y, [], [])
  {
    SynchronisedSends(x, y);
    assert AcksInOrder([], Origin(x.tcb), 0, x.tcb.sndWnd, 0, CAPACITY);
  }

  lemma SynchronisedSends(x: Node, y: Node)
    requires SynchronisedOneWay(x, y)
    ensures SendSide(x) && Acked(x) == Sent(x) == 0
  {
    assert InFlight(x.tcb) == 0;
    assert Simulates(x.tcb, Ideal([], 0, 0, x.tcb.sndWnd));
  }

  // ------------------------------------------------------- the theorems

  /** Conservation in both directions, in every state of every run. */
  lemma StreamIsConserved(s: System, schedule: seq<(Side, Action)>)
    requires Synchronised(s)
    ensures var t := Run(s, schedule); Conserved(t.a, t.b, t.ab) && Conserved(t.b, t.a, t.ba)
    ensures var t := Run(s, schedule); t.b.read <= t.a.wrote && t.a.read <= t.b.wrote
  {
    SynchronisedImpliesFlow(s.a, s.b);
    SynchronisedImpliesFlow(s.b, s.a);
    RunKeepsInv(s, schedule);
    var t := Run(s, schedule);
    InvImpliesConserved(t.a, t.b, t.ab, t.ba);
    InvImpliesConserved(t.b, t.a, t.ba, t.ab);
  }

  /** Flow control: no delivery of any run truncates a payload or blocks the daemon. */
  lemma DeliveriesAlwaysFit(s: System, schedule: seq<(Side, Action)>)
    requires Synchronised(s)
    ensures var t := Run(s, schedule); NextFits(t.a, t.ba) && NextFits(t.b, t.ab)
  {
    SynchronisedImpliesFlow(s.a, s.b);
    SynchronisedImpliesFlow(s.b, s.a);
    RunKeepsInv(s, schedule);
    var t := Run(s, schedule);
    InvImpliesFits(t.a, t.b, t.ab, t.ba);
    InvImpliesFits(t.b, t.a, t.ba, t.ab);
  }
}

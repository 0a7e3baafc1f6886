/**
 * Closing in the middle of a data transfer, with segments on the wire and bytes still unsent.
 * The FIN of side A reaches B behind exactly the bytes before its number, and these are the
 * whole stream if and only if one segment sufficed when `close` was called. Side B may close as
 * well; from then on it receives nothing.
 */
module HalfClose {
  import opened Words
  import opened ControlBlock
  import Sender
  import Stream
  import CloseFlush

  /** Side B, and the segments on their way to it, oldest first. */
  datatype Peer = Peer(node: Stream.Node, channel: seq<Segment>)

  /** Side A appends any segments at all; side B writes, transmits, delivers, reads and closes. */
  datatype Event = Sent(out: seq<Segment>) | Act(act: Stream.Action) | Close

  function Step(s: Peer, e: Event): Peer {
    match e
    case Sent(out) => s.(channel := s.channel + out)
    case Act(act) =>
      var next := Stream.StepA(Stream.System(s.node, s.node, [], s.channel), act);
      Peer(next.a, next.ba)
    case Close => s.(node := s.node.(tcb := CloseConnection(s.node.tcb).tcb))
  }

  function Run(s: Peer, events: seq<Event>): Peer
    decreases |events|
  {
    if events == [] then s else Run(Step(s, events[0]), events[1..])
  }

  /** The deliveries before side B closes, all of them if it does not. */
  function Deliveries(events: seq<Event>): nat {
    if events == [] || events[0].Close? then 0
    else (if events[0] == Act(Stream.Deliver) then 1 else 0) + Deliveries(events[1..])
  }

  function Delivered(n: Stream.Node): seq<u8> {
    n.read + n.tcb.recvBuf
  }

  /** `ahead` data segments that carry `pending`, then the FIN numbered `number`, then anything. */
  ghost predicate FinBehind(channel: seq<Segment>, pending: seq<u8>, number: u32, ahead: nat) {
    && channel != []
    && if ahead == 0
       then channel[0].fin && channel[0].seqNum == number && pending == []
       else && Stream.Plain(channel[0]) && channel[0].payload <= pending
            && FinBehind(channel[1..], pending[|channel[0].payload|..], number, ahead - 1)
  }

  /** `ahead` segments before the FIN has been delivered; afterwards, `ahead` is -1. */
  ghost predicate Awaits(s: Peer, origin: int, stream: seq<u8>, ahead: int) {
    var t := s.node.tcb;
    if ahead >= 0 then
      && t.state.Established?
      && Delivered(s.node) <= stream
      && |t.recvBuf| + |stream| - |Delivered(s.node)| <= CAPACITY
      && t.rcvNxt == Wrap(origin + |Delivered(s.node)|)
      && FinBehind(s.channel, stream[|Delivered(s.node)|..], Wrap(origin + |stream|), ahead)
    else
      && ahead == -1
      && t.state.CloseWait?
      && Delivered(s.node) == stream
      && t.rcvNxt == Wrap(origin + |stream| + 1)
  }

  // ------------------------------------------------------- every step keeps it

  lemma {:induction false} FinBehindGrows(channel: seq<Segment>, out: seq<Segment>, pending: seq<u8>, number: u32, ahead: nat)
    requires FinBehind(channel, pending, number, ahead)
    ensures FinBehind(channel + out, pending, number, ahead)
    decreases ahead
  {
    if ahead > 0 {
      FinBehindGrows(channel[1..], out, pending[|channel[0].payload|..], number, ahead - 1);
      assert (channel + out)[1..] == channel[1..] + out;
    }
  }

  /** Nothing that the step of a node leaves as it was matters. */
  lemma AwaitsFrame(s: Peer, origin: int, stream: seq<u8>, ahead: int, n: Stream.Node)
    requires Awaits(s, origin, stream, ahead)
    requires Delivered(n) == Delivered(s.node) && |n.tcb.recvBuf| <= |s.node.tcb.recvBuf|
    requires n.tcb.state == s.node.tcb.state && n.tcb.rcvNxt == s.node.tcb.rcvNxt
    ensures Awaits(s.(node := n), origin, stream, ahead)
  {
  }

  lemma DataArrives(s: Peer, origin: int, stream: seq<u8>, ahead: int)
    requires Awaits(s, origin, stream, ahead) && ahead > 0
    ensures Awaits(Step(s, Act(Stream.Deliver)), origin, stream, ahead - 1)
  {
    var p, t, n := s.channel[0], s.node.tcb, |Delivered(s.node)|;
    Stream.DeliverEffect(t, p);
    var next := Step(s, Act(Stream.Deliver));
    assert stream[n..][|p.payload|..] == stream[n + |p.payload|..];
    assert Delivered(next.node) == Delivered(s.node) + p.payload;
    PrefixGrows(Delivered(s.node), p.payload, stream);
    WrapPlus(origin + n, |p.payload|);
  }

  lemma PrefixGrows(r: seq<u8>, more: seq<u8>, stream: seq<u8>)
    requires r <= stream && more <= stream[|r|..]
    ensures r + more <= stream
  {
    assert stream == r + stream[|r|..];
  }

  lemma FinArrives(s: Peer, origin: int, stream: seq<u8>)
    requires Awaits(s, origin, stream, 0)
    ensures Awaits(Step(s, Act(Stream.Deliver)), origin, stream, -1)
  {
    var t, p := s.node.tcb, s.channel[0];
    FinEffect(t, p);
    assert |stream[|Delivered(s.node)|..]| == 0;
    WrapPlus(origin + |stream|, 1);
  }

  lemma FinEffect(t: Tcb, p: Segment)
    requires t.state.Established? && p.fin
    ensures var t' := Receive(t, p).tcb;
      t'.state.CloseWait? && t'.rcvNxt == Wrap(p.seqNum + 1) && t'.recvBuf == t.recvBuf
  {
  }

  /** The segments before the FIN after one event, and how many it took off the channel. */
  function Left(ahead: int, e: Event): int {
    if e == Act(Stream.Deliver) then Max(ahead - 1, -1) else ahead
  }

  function TakenBy(ahead: int, e: Event): nat {
    if e == Act(Stream.Deliver) && ahead > 0 then 1 else 0
  }

  lemma StepAwaits(s: Peer, origin: int, stream: seq<u8>, ahead: int, e: Event)
    requires Awaits(s, origin, stream, ahead) && !e.Close?
    ensures Awaits(Step(s, e), origin, stream, Left(ahead, e))
  {
    match e
    case Sent(out) =>
      if ahead >= 0 {
        FinBehindGrows(s.channel, out, stream[|Delivered(s.node)|..], Wrap(origin + |stream|), ahead);
      }
    case Act(Deliver) =>
      if ahead > 0 { DataArrives(s, origin, stream, ahead); }
      else if ahead == 0 { FinArrives(s, origin, stream); }
      else if s.channel != [] { AwaitsFrame(s, origin, stream, ahead, s.node); }
    case Act(Write(data)) =>
      AwaitsFrame(s, origin, stream, ahead, s.node.(tcb := Send(s.node.tcb, data), wrote := s.node.wrote + Taken(s.node.tcb.sendBuf, data)));
    case Act(Transmit) =>
      Sender.ProcessKeepsRest(s.node.tcb);
      AwaitsFrame(s, origin, stream, ahead, s.node.(tcb := ProcessBlock(s.node.tcb).tcb));
    case Act(Read(limit)) =>
      var n := s.node.(tcb := Recv(s.node.tcb, limit), read := s.node.read + Received(s.node.tcb, limit));
      Stream.ReadMoves(s.node, limit, n);
      AwaitsFrame(s, origin, stream, ahead, n);
  }

  /** Side B ends up with what it had and the first `n` payloads of the channel. */
  ghost predicate Gains(s: Peer, s': Peer, n: nat) {
    n <= |s.channel| && Delivered(s'.node) == Delivered(s.node) + Stream.Payloads(s.channel[..n])
  }

  /** `taken` of the segments before the FIN have been taken off the channel. */
  ghost predicate Advances(s: Peer, m: Peer, taken: nat, ahead: nat) {
    && Gains(s, m, taken)
    && taken <= ahead <= |s.channel| && ahead - taken <= |m.channel|
    && m.channel[..ahead - taken] == s.channel[taken..ahead]
  }

  /** What one step before a close of B adds to what B has, and leaves on the channel. */
  lemma StepDelivers(s: Peer, origin: int, stream: seq<u8>, ahead: int, e: Event)
    requires Awaits(s, origin, stream, ahead) && !e.Close?
    ensures Advances(s, Step(s, e), TakenBy(ahead, e), Max(ahead, 0))
  {
    StepAwaits(s, origin, stream, ahead, e);
    if ahead >= 0 {
      FinIsThere(s.channel, stream[|Delivered(s.node)|..], Wrap(origin + |stream|), ahead);
    }
    match e
    case Act(Deliver) =>
      if ahead > 0 {
        Stream.DeliverEffect(s.node.tcb, s.channel[0]);
        FirstPayload(s.channel);
      } else {
        DeliverNothing(s, origin, stream, ahead);
      }
    case Act(Read(limit)) =>
      Stream.ReadMoves(s.node, limit, s.node.(tcb := Recv(s.node.tcb, limit), read := s.node.read + Received(s.node.tcb, limit)));
    case Act(Transmit) => Sender.ProcessKeepsRest(s.node.tcb);
    case _ =>
  }

  lemma FirstPayload(c: seq<Segment>)
    requires c != []
    ensures Stream.Payloads(c[..1]) == c[0].payload
  {
    assert c[..1][1..] == [];
  }

  lemma DeliverNothing(s: Peer, origin: int, stream: seq<u8>, ahead: int)
    requires Awaits(s, origin, stream, ahead) && ahead <= 0
    ensures Delivered(Step(s, Act(Stream.Deliver)).node) == Delivered(s.node)
  {
    if ahead == 0 { FinEffect(s.node.tcb, s.channel[0]); }
  }

  lemma {:induction false} FinIsThere(channel: seq<Segment>, pending: seq<u8>, number: u32, ahead: nat)
    requires FinBehind(channel, pending, number, ahead)
    ensures ahead < |channel|
    decreases ahead
  {
    if ahead > 0 { FinIsThere(channel[1..], pending[|channel[0].payload|..], number, ahead - 1); }
  }

  // ------------------------------------------------------- after B's own close

  /** The states after a close: every one of them drops payload. */
  predicate Shut(t: Tcb) {
    t.state.FinWait1? || t.state.FinWait2? || t.state.Closing? || t.state.LastAck? || t.state.Closed?
  }

  lemma ShutReceivesNothing(t: Tcb, p: Segment)
    requires Shut(t)
    ensures Shut(Receive(t, p).tcb) && Receive(t, p).tcb.recvBuf == t.recvBuf
  {
  }

  lemma CloseShuts(t: Tcb)
    ensures Shut(CloseConnection(t).tcb) && CloseConnection(t).tcb.recvBuf == t.recvBuf
  {
  }

  lemma StepStaysShut(s: Peer, e: Event)
    requires Shut(s.node.tcb)
    ensures Shut(Step(s, e).node.tcb) && Delivered(Step(s, e).node) == Delivered(s.node)
  {
    match e
    case Close => CloseShuts(s.node.tcb);
    case Act(Deliver) => if s.channel != [] { ShutReceivesNothing(s.node.tcb, s.channel[0]); }
    case Act(Transmit) => Sender.ProcessKeepsRest(s.node.tcb);
    case Act(Read(limit)) =>
      Stream.ReadMoves(s.node, limit, s.node.(tcb := Recv(s.node.tcb, limit), read := s.node.read + Received(s.node.tcb, limit)));
    case _ =>
  }

  lemma {:induction false} RunStaysShut(s: Peer, events: seq<Event>)
    requires Shut(s.node.tcb)
    ensures Shut(Run(s, events).node.tcb) && Delivered(Run(s, events).node) == Delivered(s.node)
    decreases |events|
  {
    if events != [] {
      StepStaysShut(s, events[0]);
      RunStaysShut(Step(s, events[0]), events[1..]);
    }
  }

  // ------------------------------------------------------- runs

  lemma {:induction false} PayloadsSplit(c: seq<Segment>, i: nat)
    requires i <= |c|
    ensures Stream.Payloads(c) == Stream.Payloads(c[..i]) + Stream.Payloads(c[i..])
  {
    if i > 0 {
      PayloadsSplit(c[1..], i - 1);
      assert c[..i][1..] == c[1..][..i - 1] && c[1..][i - 1..] == c[i..];
    } else {
      assert c[0..] == c;
    }
  }

  /** If B never closes, it waits for the FIN or has got it. */
  lemma {:induction false} RunEnds(s: Peer, origin: int, stream: seq<u8>, ahead: int, events: seq<Event>)
    requires Awaits(s, origin, stream, ahead)
    ensures if Close in events then Shut(Run(s, events).node.tcb)
            else Awaits(Run(s, events), origin, stream, Max(ahead - Deliveries(events), -1))
    decreases |events|
  {
    if events != [] {
      if events[0].Close? {
        CloseShuts(s.node.tcb);
        RunStaysShut(Step(s, Close), events[1..]);
      } else {
        StepAwaits(s, origin, stream, ahead, events[0]);
        RunEnds(Step(s, events[0]), origin, stream, Left(ahead, events[0]), events[1..]);
      }
    }
  }

  lemma GainsNothing(s: Peer, s': Peer)
    requires Delivered(s'.node) == Delivered(s.node)
    ensures Gains(s, s', 0)
  {
    assert Delivered(s.node) + [] == Delivered(s.node);
  }

  lemma GainsInTurn(s: Peer, m: Peer, s': Peer, taken: nat, n: nat, ahead: nat)
    requires Advances(s, m, taken, ahead) && Gains(m, s', n) && taken + n <= ahead
    ensures Gains(s, s', taken + n)
  {
    TakenInTurn(s.channel, m.channel, taken, n, ahead);
  }

  /** These are the payloads of the data segments delivered before its own close. */
  lemma {:induction false} RunGains(s: Peer, origin: int, stream: seq<u8>, ahead: int, events: seq<Event>)
    requires Awaits(s, origin, stream, ahead)
    ensures Gains(s, Run(s, events), Min(Deliveries(events), Max(ahead, 0)))
    decreases |events|
  {
    if events == [] {
      GainsNothing(s, s);
    } else if events[0].Close? {
      CloseShuts(s.node.tcb);
      RunStaysShut(Step(s, Close), events[1..]);
      GainsNothing(s, Run(s, events));
    } else {
      var m, ahead', taken := Step(s, events[0]), Left(ahead, events[0]), TakenBy(ahead, events[0]);
      StepAwaits(s, origin, stream, ahead, events[0]);
      StepDelivers(s, origin, stream, ahead, events[0]);
      RunGains(m, origin, stream, ahead', events[1..]);
      CountInTurn(ahead, events);
      GainsInTurn(s, m, Run(m, events[1..]), taken, Min(Deliveries(events[1..]), Max(ahead', 0)), Max(ahead, 0));
    }
  }

  lemma CountInTurn(ahead: int, events: seq<Event>)
    requires ahead >= -1 && events != [] && !events[0].Close?
    ensures Min(Deliveries(events), Max(ahead, 0))
         == TakenBy(ahead, events[0]) + Min(Deliveries(events[1..]), Max(Left(ahead, events[0]), 0))
  {
  }

  lemma TakenInTurn(c: seq<Segment>, c': seq<Segment>, taken: nat, n: nat, ahead: nat)
    requires taken + n <= ahead <= |c| && ahead - taken <= |c'| && c'[..ahead - taken] == c[taken..ahead]
    ensures Stream.Payloads(c[..taken + n]) == Stream.Payloads(c[..taken]) + Stream.Payloads(c'[..n])
  {
    PayloadsSplit(c[..taken + n], taken);
    assert c[..taken + n][..taken] == c[..taken];
    assert c[..taken + n][taken..] == c[taken..ahead][..n] == c'[..ahead - taken][..n] == c'[..n];
  }

  // ------------------------------------------------------- where a close in mid-stream starts

  lemma {:induction false} DataThenFin(c: seq<Segment>, fin: Segment, origin: int, una: int, edge: int, arrived: int, limit: int)
    requires Stream.AcksInOrder(c, origin, una, edge, arrived, limit) && fin.fin
    ensures FinBehind(c + [fin], Stream.Payloads(c), fin.seqNum, |c|)
  {
    if c != [] {
      var k := una + Sub32(c[0].ackNum, Wrap(origin + una));
      DataThenFin(c[1..], fin, origin, k, k + c[0].window, arrived, limit);
      assert (c + [fin])[1..] == c[1..] + [fin];
      assert Stream.Payloads(c)[|c[0].payload|..] == Stream.Payloads(c[1..]);
    }
  }

  /** The FIN on the wire, behind everything that was sent before it. */
  lemma FinOnTheWire(s: Stream.System, fin: Segment)
    requires Stream.Inv(s) && fin.fin
    requires fin.seqNum == Wrap(Sender.Origin(s.a.tcb) + Stream.Sent(s.a))
    ensures Awaits(Peer(s.b, s.ab + [fin]), Sender.Origin(s.a.tcb), s.a.wrote[..Stream.Sent(s.a)], |s.ab|)
  {
    var stream, n := s.a.wrote[..Stream.Sent(s.a)], |Delivered(s.b)|;
    DataThenFin(s.ab, fin, Sender.Origin(s.b.tcb), Stream.Acked(s.b), Stream.Acked(s.b) + s.b.tcb.sndWnd,
                Stream.Arrived(s.a), Stream.Edge(s.a));
    assert stream == Delivered(s.b) + Stream.Payloads(s.ab);
    assert stream[n..] == Stream.Payloads(s.ab);
    assert Stream.Acked(s.a) + s.a.tcb.sndWnd <= Stream.Edge(s.b);
    assert |stream| == Stream.Sent(s.a);
  }

  lemma CloseAwaits(s: Stream.System)
    requires Stream.Inv(s)
    ensures var out, n := CloseConnection(s.a.tcb).out, CloseFlush.FinPosition(Stream.AsIdeal(s.a));
      && 0 <= n <= |s.a.wrote| && out != []
      && Awaits(Peer(s.b, s.ab + out), Sender.Origin(s.a.tcb), s.a.wrote[..n], |s.ab + out| - 1)
      && CloseConnection(s.a.tcb).tcb.sndNxt == Wrap(Sender.Origin(s.a.tcb) + n + 1)
  {
    var m, fin := FlushThenFin(s);
    FinOnTheWire(m, fin);
    CloseFlush.AfterClose(s.a.tcb, Stream.AsIdeal(s.a));
  }

  /** A close is a transmission followed by the FIN. */
  lemma FlushThenFin(s: Stream.System) returns (m: Stream.System, fin: Segment)
    requires Stream.Inv(s)
    ensures var out, n := CloseConnection(s.a.tcb).out, CloseFlush.FinPosition(Stream.AsIdeal(s.a));
      && Stream.Inv(m) && m.a.wrote == s.a.wrote && m.b == s.b && Stream.Sent(m.a) == n
      && Sender.Origin(m.a.tcb) == Sender.Origin(s.a.tcb)
      && fin.fin && fin.seqNum == Wrap(Sender.Origin(s.a.tcb) + n)
      && out != [] && s.ab + out == m.ab + [fin]
  {
    var out := CloseConnection(s.a.tcb).out;
    m, fin := Stream.StepA(s, Stream.Transmit), out[|out| - 1];
    Stream.TransmitKeepsInv(s);
    Stream.TransmitKeepsSendSide(s.a, m.a);
    Sender.SimulateClose(s.a.tcb, Stream.AsIdeal(s.a));
    LastBehind(s.ab, ProcessBlock(s.a.tcb).out, out);
  }

  lemma LastBehind(channel: seq<Segment>, flushed: seq<Segment>, out: seq<Segment>)
    requires out != [] && out[..|out| - 1] == flushed
    ensures channel + out == (channel + flushed) + [out[|out| - 1]]
  {
    assert out == flushed + [out[|out| - 1]];
  }

  /**
   * From any state of a data transfer, side A closes; both sides go on in any way, B's own
   * close included. With `data` the segments on the wire before the FIN, and `k` of them
   * delivered before B closes (if it does): B ends up with exactly their payloads on top of
   * what it had. So it has the bytes before the number of the FIN if and only if no payload was
   * left undelivered then, and these are A's whole stream if and only if one segment sufficed.
   * If B does not close, it enters CLOSE_WAIT with the delivery of the FIN and not before, and
   * acknowledges the FIN exactly.
   */
  lemma CloseDeliversStream(s: Stream.System, events: seq<Event>)
    requires Stream.Inv(s)
    ensures var closed, n := CloseConnection(s.a.tcb), CloseFlush.FinPosition(Stream.AsIdeal(s.a));
      && closed.out != [] && 0 <= n <= |s.a.wrote|
      && Outcome(Peer(s.b, s.ab + closed.out), closed.tcb.sndNxt, s.a.wrote[..n], events)
      && (s.a.wrote[..n] == s.a.wrote <==> CloseFlush.OneSegmentSuffices(s.a.tcb))
  {
    var out, n := CloseConnection(s.a.tcb).out, CloseFlush.FinPosition(Stream.AsIdeal(s.a));
    CloseAwaits(s);
    CloseFlush.FinPositionIsEnd(s.a.tcb, Stream.AsIdeal(s.a));
    PeerEnds(Peer(s.b, s.ab + out), Sender.Origin(s.a.tcb), s.a.wrote[..n], events);
    assert n == |s.a.wrote| ==> s.a.wrote[..n] == s.a.wrote;
  }

  /** How side B ends: `stream` are the bytes before the FIN, `next` the number after it. */
  ghost predicate Outcome(p: Peer, next: u32, stream: seq<u8>, events: seq<Event>)
    requires p.channel != []
  {
    var b, data := Run(p, events).node, p.channel[..|p.channel| - 1];
    var k := Min(Deliveries(events), |data|);
    && Delivered(b) == Delivered(p.node) + Stream.Payloads(data[..k])
    && Delivered(b) <= stream
    && (Delivered(b) == stream <==> Stream.Payloads(data[k..]) == [])
    && (Close in events <==> Shut(b.tcb))
    && (Close !in events ==>
          && (b.tcb.state.CloseWait? || b.tcb.state.Established?)
          && (b.tcb.state.CloseWait? <==> Deliveries(events) > |data|)
          && (b.tcb.state.CloseWait? ==> Delivered(b) == stream && b.tcb.rcvNxt == next))
  }

  lemma PeerEnds(p: Peer, origin: int, stream: seq<u8>, events: seq<Event>)
    requires p.channel != [] && Awaits(p, origin, stream, |p.channel| - 1)
    ensures Outcome(p, Wrap(origin + |stream| + 1), stream, events)
  {
    var data := p.channel[..|p.channel| - 1];
    var k := Min(Deliveries(events), |data|);
    RunEnds(p, origin, stream, |data|, events);
    RunGains(p, origin, stream, |data|, events);
    DataIsStream(p.channel, stream[|Delivered(p.node)|..], Wrap(origin + |stream|), |data|);
    PayloadsSplit(data, k);
    Portions(Delivered(p.node), Stream.Payloads(data[..k]), Stream.Payloads(data[k..]), stream);
    assert p.channel[..k] == data[..k];
  }

  /** What is waiting before the FIN is what the segments before it carry. */
  lemma {:induction false} DataIsStream(channel: seq<Segment>, pending: seq<u8>, number: u32, ahead: nat)
    requires FinBehind(channel, pending, number, ahead)
    ensures ahead < |channel| && Stream.Payloads(channel[..ahead]) == pending
    decreases ahead
  {
    if ahead > 0 {
      var p := channel[0].payload;
      DataIsStream(channel[1..], pending[|p|..], number, ahead - 1);
      assert channel[..ahead][1..] == channel[1..][..ahead - 1];
      assert pending == p + pending[|p|..];
    }
  }

  lemma Portions(had: seq<u8>, more: seq<u8>, rest: seq<u8>, stream: seq<u8>)
    requires had <= stream && more + rest == stream[|had|..]
    ensures had + more <= stream && (had + more == stream <==> rest == [])
  {
    assert stream == had + (more + rest) == (had + more) + rest;
  }

  // ------------------------------------------------------- end of file

  lemma StepWakes(s: Peer, origin: int, stream: seq<u8>, ahead: int, e: Event)
    requires Awaits(s, origin, stream, ahead) && !e.Close?
    ensures Step(s, e).node.tcb.recvWoken <==> s.node.tcb.recvWoken || (e == Act(Stream.Deliver) && ahead == 0)
  {
    match e
    case Act(Deliver) => if s.channel != [] { ReceiveWakes(s.node.tcb, s.channel[0]); }
    case Act(Transmit) => Sender.ProcessKeepsRest(s.node.tcb);
    case _ =>
  }

  /** Only a FIN in ESTABLISHED releases a reader. */
  lemma ReceiveWakes(t: Tcb, p: Segment)
    ensures Receive(t, p).tcb.recvWoken <==> t.recvWoken || (t.state.Established? && p.fin)
  {
    if t.state.Established? && !p.fin { Stream.AckKeepsReceiveSide(t, p); }
  }

  lemma {:induction false} WokenStays(s: Peer, events: seq<Event>)
    requires s.node.tcb.recvWoken
    ensures Run(s, events).node.tcb.recvWoken
    decreases |events|
  {
    if events != [] {
      match events[0] {
        case Act(Deliver) => if s.channel != [] { ReceiveWakes(s.node.tcb, s.channel[0]); }
        case Act(Transmit) => Sender.ProcessKeepsRest(s.node.tcb);
        case Close => CloseWakes(s.node.tcb);
        case _ =>
      }
      WokenStays(Step(s, events[0]), events[1..]);
    }
  }

  lemma CloseWakes(t: Tcb)
    ensures CloseConnection(t).tcb.recvWoken && CloseConnection(t).tcb.sendWoken
  {
  }

  lemma {:induction false} RunWakes(s: Peer, origin: int, stream: seq<u8>, ahead: int, events: seq<Event>)
    requires Awaits(s, origin, stream, ahead)
    ensures Run(s, events).node.tcb.recvWoken <==>
      s.node.tcb.recvWoken || Close in events || (ahead >= 0 && Deliveries(events) > ahead)
    decreases |events|
  {
    if events != [] {
      if events[0].Close? {
        CloseWakes(s.node.tcb);
        WokenStays(Step(s, Close), events[1..]);
      } else {
        StepAwaits(s, origin, stream, ahead, events[0]);
        StepWakes(s, origin, stream, ahead, events[0]);
        RunWakes(Step(s, events[0]), origin, stream, Left(ahead, events[0]), events[1..]);
      }
    }
  }

  /** `recv` returns, and has nothing to give. */
  predicate ReadsNothing(t: Tcb, limit: nat) {
    RecvReturns(t) && Received(t, limit) == []
  }

  /**
   * The reader at the other end of a close: as long as the FIN has not been taken in (and the
   * reader's side is not closed), `recv` with a positive limit gives bytes or waits; from then
   * on it always returns, and it gives nothing exactly when every byte that arrived has been
   * read. If B does not close, that is end of file: all bytes before the FIN have been read.
   */
  lemma EndOfFile(s: Stream.System, events: seq<Event>, limit: nat)
    requires Stream.Inv(s) && !s.b.tcb.recvWoken && limit > 0
    ensures var closed, n := CloseConnection(s.a.tcb), CloseFlush.FinPosition(Stream.AsIdeal(s.a));
      && closed.out != [] && 0 <= n <= |s.a.wrote|
      && var b := Run(Peer(s.b, s.ab + closed.out), events).node;
      var over := Close in events || Deliveries(events) >= |s.ab + closed.out|;
      && (over ==> RecvReturns(b.tcb))
      && (ReadsNothing(b.tcb, limit) <==> over && b.read == Delivered(b))
      && (Close !in events ==> (ReadsNothing(b.tcb, limit) <==> b.tcb.state.CloseWait? && b.read == s.a.wrote[..n]))
  {
    CloseAwaits(s);
    CloseDeliversStream(s, events);
    var out, n := CloseConnection(s.a.tcb).out, CloseFlush.FinPosition(Stream.AsIdeal(s.a));
    RunWakes(Peer(s.b, s.ab + out), Sender.Origin(s.a.tcb), s.a.wrote[..n], |s.ab + out| - 1, events);
    var b := Run(Peer(s.b, s.ab + out), events).node;
    NothingLeft(b, limit);
  }

  lemma NothingLeft(b: Stream.Node, limit: nat)
    requires limit > 0
    ensures ReadsNothing(b.tcb, limit) <==> b.tcb.recvWoken && b.read == Delivered(b)
  {
    if b.read == Delivered(b) { assert |b.tcb.recvBuf| == 0; }
    else { assert b.tcb.recvBuf != []; }
  }
}

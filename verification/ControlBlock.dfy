/**
 * The per-connection TCP state machine on values: the transmission control block, the
 * segments it exchanges, and one function per handler of the stack. Each function is one
 * atomic step; it returns the new control block, the segments written and what the step
 * asks of the surrounding stack.
 */
module ControlBlock {
  import opened Words
  import ByteQueue

  const CAPACITY: nat := 65535
  const MAX_SEGMENT: nat := 1460

  type SocketId = nat

  datatype State =
    | Closed | Listen | SynSent | SynReceived | Established
    | FinWait1 | FinWait2 | CloseWait | Closing | LastAck | TimeWait

  datatype Address = Address(ip: u32, port: u16)

  datatype Segment = Segment(
    seqNum: u32, ackNum: u32,
    syn: bool, ack: bool, rst: bool, fin: bool,
    window: u16, payload: seq<u8>)

  /** Contents of a TCB's send or receive buffer; the ring buffer keeps them within capacity. */
  type Contents = s: seq<u8> | |s| <= CAPACITY

  datatype Tcb = Tcb(
    id: SocketId, state: State, src: Address, dst: Address,
    sndUna: u32, sndNxt: u32, sndWnd: u32, iss: u32,
    rcvNxt: u32, irs: u32,
    sendBuf: Contents, sendWoken: bool,
    recvBuf: Contents, recvWoken: bool,
    acceptQueue: seq<SocketId>)

  /** What a step asks of the routing tables. */
  datatype TableEffect = Keep | DestroyConnection | AbortSocket | EnqueueAccept

  /** `blocked`: the daemon would wait inside `recv_buffer.write` and not return. */
  datatype Step = Step(tcb: Tcb, out: seq<Segment>, dirty: bool, effect: TableEffect, blocked: bool)

  /** A control block as `create_socket` makes it. */
  function FreshTcb(id: SocketId, state: State, src: Address, dst: Address): Tcb {
    Tcb(id, state, src, dst, 0, 0, 65535, 0, 0, 0, [], false, [], false, [])
  }

  // ---------------------------------------------------------------- buffers

  /** How much of `data` a `write` takes. */
  function Taken(buf: Contents, data: seq<u8>): seq<u8> {
    ByteQueue.Accepted(buf, data, CAPACITY)
  }

  function Written(buf: Contents, data: seq<u8>): Contents {
    buf + Taken(buf, data)
  }

  /** `peek`: at most `limit` bytes, starting `offset` bytes into the buffer. */
  function Peek(buf: Contents, limit: nat, offset: nat): seq<u8> {
    ByteQueue.Slice(buf, limit, offset)
  }

  function Discard(buf: Contents, count: nat): Contents {
    ByteQueue.Drop(buf, count)
  }

  function FreeWindow(t: Tcb): u16 {
    Min(CAPACITY - |t.recvBuf|, 65535)
  }

  // ---------------------------------------------------------------- sending

  function Control(t: Tcb, syn: bool, ack: bool, rst: bool, fin: bool, seqNum: u32, ackNum: u32): Segment {
    Segment(seqNum, ackNum, syn, ack, rst, fin, FreeWindow(t), [])
  }

  function AckOf(t: Tcb): Segment {
    Control(t, false, true, false, false, t.sndNxt, t.rcvNxt)
  }

  function DataSegment(t: Tcb, data: seq<u8>, seqNum: u32): Segment {
    Segment(seqNum, t.rcvNxt, false, true, false, false, FreeWindow(t), data)
  }

  function Stay(t: Tcb): Step {
    Step(t, [], false, Keep, false)
  }

  function Reply(t: Tcb, s: Segment): Step {
    Step(t, [s], false, Keep, false)
  }

  function InFlight(t: Tcb): u32 {
    Sub32(t.sndNxt, t.sndUna)
  }

  /** The condition on which the stack queues a socket for transmission. */
  predicate WantsToSend(t: Tcb) {
    |t.sendBuf| > InFlight(t) && t.sndWnd > InFlight(t)
  }

  predicate MaySendData(s: State) {
    s.Established? || s.CloseWait? || s.FinWait1? || s.LastAck?
  }

  function NextChunk(t: Tcb): seq<u8> {
    var usable := if t.sndWnd > InFlight(t) then t.sndWnd - InFlight(t) else 0;
    Peek(t.sendBuf, Min(usable, MAX_SEGMENT), InFlight(t))
  }

  function ProcessBlock(t: Tcb): Step {
    if t.state.SynSent? then
      Reply(t, Control(t, true, false, false, false, t.iss, 0))
    else if !MaySendData(t.state) then
      Stay(t)
    else
      var chunk := NextChunk(t);
      if |chunk| == 0 then
        Stay(t)
      else
        var t' := t.(sndNxt := Wrap(t.sndNxt + |chunk|));
        Step(t', [DataSegment(t, chunk, t.sndNxt)], WantsToSend(t'), Keep, false)
  }

  /** One socket of `check_retransmissions_` whose timer has expired. */
  function Retransmit(t: Tcb): Step {
    if !t.state.Established? || InFlight(t) == 0 then
      Stay(t)
    else
      var chunk := Peek(t.sendBuf, Min(InFlight(t), MAX_SEGMENT), 0);
      if |chunk| == 0 then Stay(t) else Reply(t, DataSegment(t, chunk, t.sndUna))
  }

  // ---------------------------------------------------------------- user calls

  /** The part of `connect` that starts the handshake. */
  function StartConnect(t: Tcb, iss: u32): Tcb {
    t.(iss := iss, sndUna := iss, sndNxt := Wrap(iss + 1), state := SynSent)
  }

  /** `send` returns (does not wait) exactly when there is room or the buffer was woken. */
  predicate SendReturns(t: Tcb) {
    |t.sendBuf| < CAPACITY || t.sendWoken
  }

  function Send(t: Tcb, data: seq<u8>): Tcb {
    t.(sendBuf := Written(t.sendBuf, data))
  }

  predicate RecvReturns(t: Tcb) {
    |t.recvBuf| > 0 || t.recvWoken
  }

  /** The bytes handed to the caller of `recv`. */
  function Received(t: Tcb, limit: nat): seq<u8> {
    ByteQueue.Slice(t.recvBuf, limit, 0)
  }

  function Recv(t: Tcb, limit: nat): Tcb {
    t.(recvBuf := Discard(t.recvBuf, limit))
  }

  /** The states from which a close sends a FIN. */
  predicate Unclosed(s: State) {
    s.Established? || s.CloseWait?
  }

  /** `TransmissionControlBlock::close`. */
  function CloseBuffers(t: Tcb): Tcb {
    t.(recvWoken := true, sendWoken := true,
       state := if t.state.Established? then FinWait1 else LastAck)
  }

  function SendFin(t: Tcb, next: State): Step {
    var flushed := ProcessBlock(t);
    var t' := CloseBuffers(flushed.tcb).(state := next);
    Step(t'.(sndNxt := Wrap(t'.sndNxt + 1)),
         flushed.out + [Control(t', false, true, false, true, t'.sndNxt, t'.rcvNxt)],
         flushed.dirty, Keep, false)
  }

  function CloseConnection(t: Tcb): Step {
    if t.state.Established? then SendFin(t, FinWait1)
    else if t.state.CloseWait? then SendFin(t, LastAck)
    else Step(CloseBuffers(t), [], false, DestroyConnection, false)
  }

  // ---------------------------------------------------------------- receiving

  /** The reset a closed or unknown connection answers with (nothing to a reset). */
  function ClosedReset(p: Segment): seq<Segment> {
    if p.rst then []
    else if p.ack then [Segment(p.ackNum, 0, false, false, true, false, 0, [])]
    else [Segment(0, Wrap(p.seqNum + |p.payload| + (if p.syn then 1 else 0)), false, true, true, false, 0, [])]
  }

  /** The child that a SYN creates on a listening port. */
  function PassiveChild(id: SocketId, local: Address, remote: Address, p: Segment, iss: u32): Tcb {
    FreshTcb(id, SynReceived, local, remote).(
      irs := p.seqNum, rcvNxt := Wrap(p.seqNum + 1), sndWnd := p.window,
      iss := iss, sndUna := iss, sndNxt := Wrap(iss + 1))
  }

  function SynAckOf(t: Tcb): Segment {
    Control(t, true, true, false, false, t.iss, t.rcvNxt)
  }

  function HandleSynSent(t: Tcb, p: Segment): Step {
    if p.rst then
      Stay(if p.ack && p.ackNum == t.sndNxt then t.(state := Closed) else t)
    else if p.ack && p.ackNum != t.sndNxt then
      Reply(t, Control(t, false, false, true, false, p.ackNum, 0))
    else if p.syn && p.ack then
      var t' := t.(irs := p.seqNum, rcvNxt := Wrap(p.seqNum + 1), sndUna := p.ackNum,
                   sndWnd := p.window, state := Established);
      Reply(t', AckOf(t'))
    else if p.syn then
      var t' := t.(irs := p.seqNum, rcvNxt := Wrap(p.seqNum + 1), sndWnd := p.window, state := SynReceived);
      Reply(t', SynAckOf(t'))
    else
      Stay(t)
  }

  function HandleSynReceived(t: Tcb, p: Segment): Step {
    if p.rst then
      Step(t.(state := Closed), [], false, AbortSocket, false)
    else if !p.ack || p.ackNum != t.sndNxt then
      Stay(t)
    else
      var t' := t.(sndUna := p.ackNum, sndWnd := p.window, state := Established);
      Step(t', if p.syn then [AckOf(t')] else [], false, EnqueueAccept, false)
  }

  /** The acknowledgement half of the ESTABLISHED handler. */
  function AcceptAck(t: Tcb, p: Segment): Tcb {
    var advance := Sub32(p.ackNum, t.sndUna);
    if !p.ack then t
    else if Signed32(advance) > 0 then
      t.(sendBuf := Discard(t.sendBuf, advance), sndUna := p.ackNum, sndWnd := p.window)
    else
      t.(sndWnd := p.window)
  }

  /** The payload half of the ESTABLISHED handler; SEQ is not compared with RCV.NXT. */
  function AcceptPayload(t: Tcb, p: Segment, dirty: bool): Step {
    if |p.payload| == 0 then
      Step(t, [], dirty, Keep, false)
    else
      var t' := t.(rcvNxt := Wrap(t.rcvNxt + |p.payload|));
      if |t.recvBuf| == CAPACITY && !t.recvWoken then
        Step(t', [], dirty, Keep, true)
      else
        var t'' := t'.(recvBuf := Written(t.recvBuf, p.payload));
        Step(t'', [AckOf(t'')], dirty, Keep, false)
  }

  function HandleEstablished(t: Tcb, p: Segment): Step {
    if p.fin then
      var t' := t.(rcvNxt := Wrap(p.seqNum + 1),
                   sndNxt := if p.ack then p.ackNum else t.sndNxt,
                   sndWnd := if p.ack then p.window else t.sndWnd);
      Reply(t'.(state := CloseWait, recvWoken := true), AckOf(t'))
    else
      var t' := AcceptAck(t, p);
      AcceptPayload(t', p, p.ack && WantsToSend(t'))
  }

  function HandleFinWait1(t: Tcb, p: Segment): Step {
    var t' := t.(rcvNxt := Wrap(p.seqNum + 1));
    if p.ack && p.ackNum == t.sndNxt then
      if p.fin then Step(t'.(state := Closed), [AckOf(t')], false, DestroyConnection, false)
      else Stay(t.(state := FinWait2))
    else if p.fin then
      Reply(t'.(state := Closing), AckOf(t'))
    else
      Stay(t)
  }

  function HandleFinWait2(t: Tcb, p: Segment): Step {
    if !p.fin then
      Stay(t)
    else
      var t' := t.(rcvNxt := Wrap(p.seqNum + 1), sndNxt := if p.ack then p.ackNum else t.sndNxt);
      Step(t'.(state := Closed), [AckOf(t')], false, DestroyConnection, false)
  }

  /** CLOSING and LAST_ACK wait for the acknowledgement of this side's FIN. */
  function HandleAwaitingFinAck(t: Tcb, p: Segment): Step {
    if p.ack && p.ackNum == t.sndNxt then Step(t.(state := Closed), [], false, DestroyConnection, false)
    else Stay(t)
  }

  /**
   * Dispatch on the state of an existing control block. A LISTEN block hands the segment to
   * the passive open, which concerns the tables and not this block.
   */
  function Receive(t: Tcb, p: Segment): Step {
    match t.state
    case Closed => Step(t, ClosedReset(p), false, Keep, false)
    case SynSent => HandleSynSent(t, p)
    case SynReceived => HandleSynReceived(t, p)
    case Established => HandleEstablished(t, p)
    case FinWait1 => HandleFinWait1(t, p)
    case FinWait2 => HandleFinWait2(t, p)
    case Closing => HandleAwaitingFinAck(t, p)
    case LastAck => HandleAwaitingFinAck(t, p)
    case _ => Stay(t)
  }
}

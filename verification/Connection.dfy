/**
 * The transmission control block as the program holds it: a mutable record with two ring
 * buffers. Every handler is proved to do to the record what the handler's function does to
 * its value, so the theorems about the functions hold of the record.
 */
module Connection {
  import opened Words
  import opened Ring
  import opened ControlBlock

  class TransmissionControlBlock {
    const id: SocketId
    var state: State
    var src: Address
    var dst: Address
    var sndUna: u32
    var sndNxt: u32
    var sndWnd: u32
    var iss: u32
    var rcvNxt: u32
    var irs: u32
    var acceptQueue: seq<SocketId>
    const sendBuffer: BlockingBuffer<u8>
    const recvBuffer: BlockingBuffer<u8>

    ghost function Repr(): set<object> {
      {this, sendBuffer, sendBuffer.buffer, recvBuffer, recvBuffer.buffer}
    }

    ghost predicate Valid()
      reads Repr()
    {
      && sendBuffer != recvBuffer && sendBuffer.buffer != recvBuffer.buffer
      && sendBuffer.Valid() && sendBuffer.buffer.Length == CAPACITY
      && recvBuffer.Valid() && recvBuffer.buffer.Length == CAPACITY
    }

    /** The value this record holds. */
    ghost function View(): Tcb
      requires Valid()
      reads Repr()
    {
      Tcb(id, state, src, dst, sndUna, sndNxt, sndWnd, iss, rcvNxt, irs,
          sendBuffer.Contents(), sendBuffer.woken, recvBuffer.Contents(), recvBuffer.woken, acceptQueue)
    }

    constructor (id: SocketId, state: State, src: Address, dst: Address)
      ensures Valid() && fresh(Repr())
      ensures View() == FreshTcb(id, state, src, dst)
    {
      this.id, this.state, this.src, this.dst := id, state, src, dst;
      sndUna, sndNxt, sndWnd, iss, rcvNxt, irs := 0, 0, 65535, 0, 0, 0;
      acceptQueue := [];
      var send := new BlockingBuffer<u8>(CAPACITY);
      var recv := new BlockingBuffer<u8>(CAPACITY);
      sendBuffer, recvBuffer := send, recv;
    }

    // ------------------------------------------------------- output

    method Control(syn: bool, ack: bool, rst: bool, fin: bool, seqNum: u32, ackNum: u32) returns (s: Segment)
      requires Valid()
      ensures s == ControlBlock.Control(View(), syn, ack, rst, fin, seqNum, ackNum)
    {
      s := Segment(seqNum, ackNum, syn, ack, rst, fin, Min(recvBuffer.AvailableCapacity(), 65535), []);
    }

    method Data(bytes: seq<u8>, seqNum: u32) returns (s: Segment)
      requires Valid()
      ensures s == DataSegment(View(), bytes, seqNum)
    {
      s := Segment(seqNum, rcvNxt, false, true, false, false, Min(recvBuffer.AvailableCapacity(), 65535), bytes);
    }

    /** Copies out at most `limit` bytes of the send buffer from `offset` on. */
    method PeekSend(limit: nat, offset: nat) returns (bytes: seq<u8>)
      requires Valid()
      ensures bytes == Peek(View().sendBuf, limit, offset)
    {
      var packet := new u8[limit];
      var n := sendBuffer.Peek(packet, offset);
      bytes := packet[..n];
    }

    method ProcessBlock() returns (out: seq<Segment>, dirty: bool)
      requires Valid()
      modifies this`sndNxt
      ensures Valid()
      ensures Step(View(), out, dirty, Keep, false) == ControlBlock.ProcessBlock(old(View()))
    {
      if state.SynSent? {
        var syn := Control(true, false, false, false, iss, 0);
        return [syn], false;
      }
      if state != Established && state != CloseWait && state != FinWait1 && state != LastAck {
        return [], false;
      }
      out, dirty := TransmitChunk();
    }

    /** The rest of `process_block_`: send the next chunk and judge whether to queue again. */
    method TransmitChunk() returns (out: seq<Segment>, dirty: bool)
      requires Valid() && MaySendData(state)
      modifies this`sndNxt
      ensures Valid()
      ensures Step(View(), out, dirty, Keep, false) == ControlBlock.ProcessBlock(old(View()))
    {
      ghost var t := View();
      var chunk := NextChunk();
      if |chunk| == 0 {
        return [], false;
      }
      var segment := Data(chunk, sndNxt);
      sndNxt := Wrap(sndNxt + |chunk|);
      assert View() == t.(sndNxt := Wrap(t.sndNxt + |chunk|));
      dirty := MoreToSend();
      out := [segment];
    }

    /** Unsent data and an open window. */
    method MoreToSend() returns (more: bool)
      requires Valid()
      ensures more == WantsToSend(View())
    {
      var inFlight := Sub32(sndNxt, sndUna);
      more := sendBuffer.Size() > inFlight && sndWnd > inFlight;
    }

    /** The window calculation and the peek of `process_block_`. */
    method NextChunk() returns (chunk: seq<u8>)
      requires Valid()
      ensures chunk == ControlBlock.NextChunk(View())
    {
      var inFlight := Sub32(sndNxt, sndUna);
      var usable := if sndWnd > inFlight then sndWnd - inFlight else 0;
      if usable == 0 {
        return [];
      }
      chunk := PeekSend(Min(usable, MAX_SEGMENT), inFlight);
    }

    method Retransmit() returns (out: seq<Segment>)
      requires Valid()
      ensures Step(View(), out, false, Keep, false) == ControlBlock.Retransmit(View())
    {
      out := [];
      var inFlight := Sub32(sndNxt, sndUna);
      if state.Established? && inFlight > 0 {
        var chunk := PeekSend(Min(inFlight, MAX_SEGMENT), 0);
        if |chunk| > 0 {
          var segment := Data(chunk, sndUna);
          out := [segment];
        }
      }
    }

    // ------------------------------------------------------- user calls

    method StartConnect(number: u32)
      requires Valid()
      modifies this
      ensures Valid() && View() == ControlBlock.StartConnect(old(View()), number)
    {
      iss := number;
      sndUna := number;
      sndNxt := Wrap(number + 1);
      state := SynSent;
    }

    method Send(data: seq<u8>) returns (count: nat)
      requires Valid() && SendReturns(View())
      modifies sendBuffer, sendBuffer.buffer
      ensures Valid() && View() == ControlBlock.Send(old(View()), data)
      ensures count == |Taken(old(View()).sendBuf, data)|
    {
      count := sendBuffer.Write(data);
    }

    method Recv(bytes: array<u8>) returns (count: nat)
      requires Valid() && RecvReturns(View()) && bytes !in Repr()
      modifies recvBuffer, bytes
      ensures Valid() && View() == ControlBlock.Recv(old(View()), bytes.Length)
      ensures count <= bytes.Length && bytes[..count] == Received(old(View()), bytes.Length)
    {
      count := recvBuffer.Read(bytes);
    }

    /** `close` of the record: wakes both buffers. */
    method CloseBuffers()
      requires Valid()
      modifies this`state, sendBuffer`woken, recvBuffer`woken
      ensures Valid() && View() == ControlBlock.CloseBuffers(old(View()))
    {
      recvBuffer.ForceWakeUp();
      sendBuffer.ForceWakeUp();
      state := if state.Established? then FinWait1 else LastAck;
    }

    method CloseConnection() returns (out: seq<Segment>, dirty: bool, effect: TableEffect)
      requires Valid()
      modifies this`state, this`sndNxt, sendBuffer`woken, recvBuffer`woken
      ensures Valid()
      ensures Step(View(), out, dirty, effect, false) == ControlBlock.CloseConnection(old(View()))
    {
      if state.Established? {
        out, dirty := SendFin(FinWait1);
        effect := Keep;
      } else if state.CloseWait? {
        out, dirty := SendFin(LastAck);
        effect := Keep;
      } else {
        CloseBuffers();
        out, dirty, effect := [], false, DestroyConnection;
      }
    }

    method SendFin(next: State) returns (out: seq<Segment>, dirty: bool)
      requires Valid()
      modifies this`state, this`sndNxt, sendBuffer`woken, recvBuffer`woken
      ensures Valid()
      ensures Step(View(), out, dirty, Keep, false) == ControlBlock.SendFin(old(View()), next)
    {
      out, dirty := ProcessBlock();
      CloseBuffers();
      state := next;
      var fin := Control(false, true, false, true, sndNxt, rcvNxt);
      out := out + [fin];
      sndNxt := Wrap(sndNxt + 1);
    }

    // ------------------------------------------------------- handlers

    method HandleSynSent(p: Segment) returns (out: seq<Segment>)
      requires Valid() && state.SynSent?
      modifies this
      ensures Valid()
      ensures Step(View(), out, false, Keep, false) == ControlBlock.HandleSynSent(old(View()), p)
    {
      out := [];
      if p.rst {
        if p.ack && p.ackNum == sndNxt {
          state := Closed;
        }
        return;
      }
      if p.ack && p.ackNum != sndNxt {
        var rst := Control(false, false, true, false, p.ackNum, 0);
        return [rst];
      }
      ghost var t := View();
      if p.syn && p.ack {
        irs := p.seqNum;
        rcvNxt := Wrap(irs + 1);
        sndUna := p.ackNum;
        sndWnd := p.window;
        state := Established;
        assert View() == t.(irs := p.seqNum, rcvNxt := Wrap(p.seqNum + 1), sndUna := p.ackNum,
                            sndWnd := p.window, state := Established);
        var ack := Control(false, true, false, false, sndNxt, rcvNxt);
        return [ack];
      } else if p.syn {
        irs := p.seqNum;
        rcvNxt := Wrap(irs + 1);
        sndWnd := p.window;
        state := SynReceived;
        assert View() == t.(irs := p.seqNum, rcvNxt := Wrap(p.seqNum + 1), sndWnd := p.window, state := SynReceived);
        var synAck := Control(true, true, false, false, iss, rcvNxt);
        return [synAck];
      }
    }

    method HandleSynReceived(p: Segment) returns (out: seq<Segment>, effect: TableEffect)
      requires Valid() && state.SynReceived?
      modifies this
      ensures Valid()
      ensures Step(View(), out, false, effect, false) == ControlBlock.HandleSynReceived(old(View()), p)
    {
      out, effect := [], Keep;
      if p.rst {
        state := Closed;
        return [], AbortSocket;
      }
      if !p.ack {
        return;
      }
      if p.ackNum != sndNxt {
        return;
      }
      sndUna := p.ackNum;
      sndWnd := p.window;
      state := Established;
      effect := EnqueueAccept;
      if p.syn && p.ack {
        var ack := Control(false, true, false, false, sndNxt, rcvNxt);
        out := [ack];
      }
    }

    /** The acknowledgement part of `handle_established_state_`. */
    method AcceptAck(p: Segment)
      requires Valid()
      modifies this`sndUna, this`sndWnd, sendBuffer`readPos, sendBuffer`currLen
      ensures Valid() && View() == ControlBlock.AcceptAck(old(View()), p)
    {
      if p.ack {
        if Signed32(Sub32(p.ackNum, sndUna)) > 0 {
          var ackedBytes := Sub32(p.ackNum, sndUna);
          var _ := sendBuffer.Discard(ackedBytes);
          sndUna := p.ackNum;
        }
        sndWnd := p.window;
      }
    }

    /** The payload part; `blocked` when the write would wait and the handler not return. */
    method AcceptPayload(p: Segment, queued: bool) returns (out: seq<Segment>, blocked: bool)
      requires Valid()
      modifies this`rcvNxt, recvBuffer, recvBuffer.buffer
      ensures Valid()
      ensures Step(View(), out, queued, Keep, blocked) == ControlBlock.AcceptPayload(old(View()), p, queued)
    {
      out, blocked := [], false;
      if |p.payload| > 0 {
        rcvNxt := Wrap(rcvNxt + |p.payload|);
        if recvBuffer.currLen == recvBuffer.buffer.Length && !recvBuffer.woken {
          return [], true;
        }
        var _ := recvBuffer.Write(p.payload);
        var ack := Control(false, true, false, false, sndNxt, rcvNxt);
        out := [ack];
      }
    }

    method HandleEstablished(p: Segment) returns (out: seq<Segment>, dirty: bool, blocked: bool)
      requires Valid() && state.Established?
      modifies Repr()
      ensures Valid()
      ensures Step(View(), out, dirty, Keep, blocked) == ControlBlock.HandleEstablished(old(View()), p)
    {
      if p.fin {
        rcvNxt := Wrap(p.seqNum + 1);
        if p.ack {
          sndNxt := p.ackNum;
          sndWnd := p.window;
        }
        var ack := Control(false, true, false, false, sndNxt, rcvNxt);
        state := CloseWait;
        recvBuffer.ForceWakeUp();
        return [ack], false, false;
      }
      AcceptAck(p);
      dirty := false;
      if p.ack {
        dirty := MoreToSend();
      }
      out, blocked := AcceptPayload(p, dirty);
    }

    method HandleFinWait1(p: Segment) returns (out: seq<Segment>, effect: TableEffect)
      requires Valid() && state.FinWait1?
      modifies this
      ensures Valid()
      ensures Step(View(), out, false, effect, false) == ControlBlock.HandleFinWait1(old(View()), p)
    {
      out, effect := [], Keep;
      if p.ack && p.ackNum == sndNxt {
        if p.fin {
          rcvNxt := Wrap(p.seqNum + 1);
          var ack := Control(false, true, false, false, sndNxt, rcvNxt);
          state := Closed;
          return [ack], DestroyConnection;
        } else {
          state := FinWait2;
        }
      } else if p.fin {
        rcvNxt := Wrap(p.seqNum + 1);
        var ack := Control(false, true, false, false, sndNxt, rcvNxt);
        state := Closing;
        out := [ack];
      }
    }

    method HandleFinWait2(p: Segment) returns (out: seq<Segment>, effect: TableEffect)
      requires Valid() && state.FinWait2?
      modifies this
      ensures Valid()
      ensures Step(View(), out, false, effect, false) == ControlBlock.HandleFinWait2(old(View()), p)
    {
      out, effect := [], Keep;
      if p.fin {
        rcvNxt := Wrap(p.seqNum + 1);
        if p.ack {
          sndNxt := p.ackNum;
        }
        var ack := Control(false, true, false, false, sndNxt, rcvNxt);
        state := Closed;
        return [ack], DestroyConnection;
      }
    }

    /** `handle_closing_state_` and `handle_last_ack_state_`. */
    method HandleAwaitingFinAck(p: Segment) returns (effect: TableEffect)
      requires Valid()
      modifies this`state
      ensures Valid()
      ensures Step(View(), [], false, effect, false) == ControlBlock.HandleAwaitingFinAck(old(View()), p)
    {
      effect := Keep;
      if p.ack && p.ackNum == sndNxt {
        state := Closed;
        effect := DestroyConnection;
      }
    }

    /** The dispatch of `process_incoming_packet_`. */
    method Receive(p: Segment) returns (out: seq<Segment>, dirty: bool, effect: TableEffect, blocked: bool)
      requires Valid()
      modifies Repr()
      ensures Valid()
      ensures Step(View(), out, dirty, effect, blocked) == ControlBlock.Receive(old(View()), p)
    {
      out, dirty, effect, blocked := [], false, Keep, false;
      match state
      case Closed => out := ClosedReset(p);
      case SynSent => out := HandleSynSent(p);
      case SynReceived => out, effect := HandleSynReceived(p);
      case Established => out, dirty, blocked := HandleEstablished(p);
      case FinWait1 => out, effect := HandleFinWait1(p);
      case FinWait2 => out, effect := HandleFinWait2(p);
      case Closing => effect := HandleAwaitingFinAck(p);
      case LastAck => effect := HandleAwaitingFinAck(p);
      case _ =>
    }
  }
}

/**
 * The stack as an object: tables, dirty queue and output that its methods update in place.
 * Each method is proved to take the object from one value of the model to the next, so what
 * holds of every run of the model holds of the object.
 */
module TcpStackObject {
  import opened Words
  import opened ControlBlock
  import opened StackModel
  import opened Tables
  import Ports
  import WireDelivery

  class TcpStack {
    const socketTable: SocketTable
    const listenerTable: ListenerTable
    const connectionTable: ConnectionTable
    var dirtySocketIds: seq<SocketId>
    var nextPort: u16
    var written: seq<Packet>

    ghost predicate Valid() {
      listenerTable.socketTable == socketTable && connectionTable.socketTable == socketTable
    }

    ghost function Repr(): set<object> {
      {this, socketTable, listenerTable, connectionTable}
    }

    ghost function View(): Stack
      reads Repr()
    {
      Stack(socketTable.sockets, socketTable.nextId, listenerTable.listeners, connectionTable.connections,
            dirtySocketIds, nextPort, written)
    }

    constructor ()
      ensures Valid() && fresh(Repr()) && View() == EMPTY
    {
      var s := new SocketTable();
      var l := new ListenerTable(s);
      var c := new ConnectionTable(s);
      socketTable, listenerTable, connectionTable := s, l, c;
      dirtySocketIds, nextPort, written := [], Ports.FIRST, [];
    }

    method AddDirtyTcb(id: SocketId)
      requires Valid()
      modifies this`dirtySocketIds
      ensures View() == AddDirty(old(View()), id)
    {
      if id == 0 || !socketTable.Contains(id) {
        return;
      }
      dirtySocketIds := dirtySocketIds + [id];
    }

    /** The segments of one step leave in order. */
    method WritePackets(segs: seq<Segment>, src: Address, dst: Address)
      requires Valid()
      modifies this`written
      ensures View() == Write(old(View()), segs, src, dst)
    {
      var i := 0;
      while i < |segs|
        invariant 0 <= i <= |segs|
        invariant written == old(written) + Addressed(segs[..i], src, dst)
        invariant dirtySocketIds == old(dirtySocketIds) && nextPort == old(nextPort)
      {
        assert Addressed(segs[..i + 1], src, dst) == Addressed(segs[..i], src, dst) + [Packet(src, dst, segs[i])];
        written := written + [Packet(src, dst, segs[i])];
        i := i + 1;
      }
      assert segs[..|segs|] == segs;
    }

    /** Stores the outcome of a step of one socket and carries out what it asks for. */
    method ApplyStep(id: SocketId, r: Step, remote: Address)
      requires Valid()
      modifies Repr()
      ensures View() == Apply(old(View()), id, r, remote)
    {
      StoreStep(id, r);
      match r.effect
      case Keep =>
      case DestroyConnection =>
        var _ := connectionTable.DestroyConnection(r.tcb.src, r.tcb.dst);
        NoRouteNoChange(connectionTable.connections, (r.tcb.src, r.tcb.dst));
      case AbortSocket =>
        var _ := connectionTable.Erase(remote, r.tcb.src);
        var _ := socketTable.DestroySocket(id);
      case EnqueueAccept =>
        var listener := listenerTable.Find(r.tcb.src.port);
        if listener != 0 {
          var l := socketTable.sockets[listener];
          socketTable.Put(listener, l.(acceptQueue := l.acceptQueue + [id]));
        }
    }

    method StoreStep(id: SocketId, r: Step)
      requires Valid()
      modifies this`written, this`dirtySocketIds, socketTable`sockets
      ensures View() == Store(old(View()), id, r)
    {
      socketTable.Put(id, r.tcb);
      WritePackets(r.out, r.tcb.src, r.tcb.dst);
      if r.dirty {
        AddDirtyTcb(id);
      }
    }

    // ------------------------------------------------------- daemon

    method ProcessBlock(id: SocketId)
      requires Valid()
      modifies Repr()
      ensures View() == ProcessOne(old(View()), id)
    {
      if socketTable.Contains(id) {
        var t := socketTable.sockets[id];
        ApplyStep(id, ControlBlock.ProcessBlock(t), t.dst);
      }
    }

    /** `process_dirty_blocks_`: the queue is swapped out, then worked off from its front. */
    method ProcessDirtyBlocks()
      requires Valid()
      modifies Repr()
      ensures View() == ProcessDirty(old(View()))
    {
      var ids := dirtySocketIds;
      dirtySocketIds := [];
      while ids != []
        invariant ProcessAll(View(), ids) == ProcessDirty(old(View()))
        decreases |ids|
      {
        ProcessBlock(ids[0]);
        ids := ids[1..];
      }
    }

    /** `check_retransmissions_` over the sockets whose timers have expired, in table order. */
    method CheckRetransmissions(expired: seq<SocketId>)
      requires Valid()
      modifies Repr()
      ensures View() == RetransmitAll(old(View()), expired)
    {
      var ids := expired;
      while ids != []
        invariant RetransmitAll(View(), ids) == RetransmitAll(old(View()), expired)
        decreases |ids|
      {
        if socketTable.Contains(ids[0]) {
          var t := socketTable.sockets[ids[0]];
          ApplyStep(ids[0], ControlBlock.Retransmit(t), t.dst);
        }
        ids := ids[1..];
      }
    }

    // ------------------------------------------------------- incoming segments

    method HandlePassiveOpenSyn(src: Address, dst: Address, p: Segment, iss: u32)
      requires Valid()
      modifies Repr()
      ensures View() == PassiveOpen(old(View()), src, dst, p, iss)
    {
      var listener := listenerTable.Find(dst.port);
      if listener != 0 && p.syn && !p.ack {
        var id := socketTable.CreateSocket(SynReceived, dst, src);
        var child := socketTable.sockets[id];
        child := child.(irs := p.seqNum, rcvNxt := Wrap(p.seqNum + 1), sndWnd := p.window);
        child := child.(iss := iss, sndUna := iss, sndNxt := Wrap(iss + 1));
        socketTable.Put(id, child);
        connectionTable.Insert(src, dst, id);
        WritePackets([SynAckOf(child)], dst, src);
      }
    }

    method ProcessIncomingPacket(src: Address, dst: Address, p: Segment, iss: u32)
      requires Valid()
      modifies Repr()
      ensures View() == Incoming(old(View()), src, dst, p, iss)
    {
      var id := connectionTable.Find(src, dst);
      if id == 0 {
        var bound := listenerTable.Contains(dst.port);
        if bound && p.syn && !p.ack {
          HandlePassiveOpenSyn(src, dst, p, iss);
        } else {
          WritePackets(ClosedReset(p), dst, src);
        }
        return;
      }
      var t := socketTable.sockets[id];
      match t.state
      case Closed => WritePackets(ClosedReset(p), dst, src);
      case Listen => HandlePassiveOpenSyn(src, dst, p, iss);
      case _ => ApplyStep(id, Receive(t, p), src);
    }

    /** Raw octets from the device: anything that does not parse is dropped. */
    method ProcessIncomingBytes(buffer: seq<u8>, iss: u32)
      requires Valid()
      modifies Repr()
      ensures View() == WireDelivery.IncomingBytes(old(View()), buffer, iss)
    {
      match WireDelivery.Decode(buffer)
      case None =>
      case Some(p) => ProcessIncomingPacket(p.src, p.dst, p.seg, iss);
    }

    // ------------------------------------------------------- user calls

    method AllocateEphemeralPort() returns (port: u16)
      requires Valid()
      modifies this`nextPort
      ensures Ports.Allocation(port, nextPort) == Ports.Probe(BoundPorts(old(View())), old(nextPort), Ports.PROBES)
    {
      var bound := set p | p in listenerTable.listeners && socketTable.Contains(listenerTable.listeners[p]);
      assert bound == BoundPorts(View());
      var r := Ports.AllocateEphemeralPort(bound, nextPort);
      port, nextPort := r.port, r.next;
    }

    method ResolveAddress(addr: Address, localIp: u32) returns (local: Address)
      requires Valid()
      modifies this`nextPort
      ensures (View(), local) == Resolve(old(View()), addr, localIp)
    {
      local := addr;
      if local.ip == 0 {
        local := local.(ip := localIp);
      }
      if local.port == 0 {
        var port := AllocateEphemeralPort();
        local := local.(port := port);
      }
    }

    method BindSocket(addr: Address, localIp: u32, iss: u32)
      requires Valid()
      modifies Repr()
      ensures View() == Bind(old(View()), addr, localIp, iss)
    {
      var local := ResolveAddress(addr, localIp);
      var id := listenerTable.BindNew(local);
      var t := socketTable.sockets[id];
      socketTable.Put(id, t.(iss := iss, sndNxt := iss));
    }

    method ConnectSocket(id: SocketId, remote: Address, localIp: u32, iss: u32) returns (used: SocketId)
      requires Valid()
      modifies Repr()
      ensures View() == Connect(old(View()), id, remote, localIp, iss) && used == ConnectingId(old(View()), id)
    {
      var wanted := Address(0, 0);
      if socketTable.Contains(id) {
        wanted := socketTable.sockets[id].src;
      }
      var local := ResolveAddress(wanted, localIp);
      used := connectionTable.RegisterConnection(local, remote, id);
      socketTable.Put(used, StartConnect(socketTable.sockets[used], iss));
      AddDirtyTcb(used);
    }

    method ListenSocket(id: SocketId)
      requires Valid()
      modifies Repr()
      ensures View() == ListenOn(old(View()), id)
    {
      if socketTable.Contains(id) && socketTable.sockets[id].state.Closed? {
        socketTable.Put(id, socketTable.sockets[id].(state := Listen));
      }
    }

    /** The oldest established child of a listener, or 0 where `accept` would wait or fail. */
    method AcceptSocket(id: SocketId) returns (child: SocketId)
      requires Valid()
      modifies Repr()
      ensures View() == AcceptFrom(old(View()), id)
      ensures child == AcceptedChild(old(View()), id)
    {
      child := 0;
      if socketTable.Contains(id) && socketTable.sockets[id].state.Listen? && socketTable.sockets[id].acceptQueue != [] {
        var t := socketTable.sockets[id];
        child := t.acceptQueue[0];
        socketTable.Put(id, t.(acceptQueue := t.acceptQueue[1..]));
      }
    }

    method RecvSocket(id: SocketId, limit: nat) returns (bytes: seq<u8>)
      requires Valid()
      modifies Repr()
      ensures View() == RecvOn(old(View()), id, limit)
      ensures bytes == if Alive(old(View()), id) && RecvReturns(old(View()).sockets[id])
                       then Received(old(View()).sockets[id], limit) else []
    {
      bytes := [];
      if socketTable.Contains(id) && RecvReturns(socketTable.sockets[id]) {
        bytes := Received(socketTable.sockets[id], limit);
        socketTable.Put(id, Recv(socketTable.sockets[id], limit));
      }
    }

    /** The number of bytes taken, 0 where `send` fails or would wait. */
    method SendSocket(id: SocketId, data: seq<u8>) returns (count: nat)
      requires Valid()
      modifies Repr()
      ensures View() == SendOn(old(View()), id, data)
      ensures count == if Alive(old(View()), id) && SendReturns(old(View()).sockets[id])
                       then |Taken(old(View()).sockets[id].sendBuf, data)| else 0
    {
      count := 0;
      if socketTable.Contains(id) && SendReturns(socketTable.sockets[id]) {
        count := |Taken(socketTable.sockets[id].sendBuf, data)|;
        socketTable.Put(id, Send(socketTable.sockets[id], data));
        AddDirtyTcb(id);
      }
    }

    method CloseConnection(id: SocketId)
      requires Valid()
      modifies Repr()
      ensures View() == CloseOf(old(View()), id)
    {
      if socketTable.Contains(id) {
        var t := socketTable.sockets[id];
        ApplyStep(id, ControlBlock.CloseConnection(t), t.dst);
      }
    }
  }

  lemma NoRouteNoChange<K, V>(m: map<K, V>, k: K)
    requires k !in m
    ensures m - {k} == m
  {
  }
}

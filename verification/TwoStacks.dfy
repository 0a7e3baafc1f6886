/**
 * Two whole stacks that exchange octets over lossless FIFO channels: each has its tables, its
 * dirty queue and whatever other sockets it holds. Their steps refine those of the two control
 * blocks of `Stream`, so what one application reads is what the other one wrote.
 */
module TwoStacks {
  import opened Words
  import opened ControlBlock
  import opened StackModel
  import opened WireDelivery
  import Routing
  import QueueDrain
  import Lifecycle
  import Stream

  /** A stack, and what the application wrote to and read from the connection. */
  datatype Host = Host(stack: Stack, wrote: seq<u8>, read: seq<u8>)

  /** Where a connection lives on one host. */
  datatype Endpoint = Endpoint(id: SocketId, local: Address, remote: Address)

  /** `ab` holds the datagrams on their way from `a` to `b`, oldest first. */
  datatype World = World(a: Host, b: Host, ab: seq<seq<u8>>, ba: seq<seq<u8>>)

  datatype Action =
    | Write(data: seq<u8>)
    | Daemon
    | Deliver(iss: u32)
    | Read(limit: nat)
    | Other(localIp: u32, act: StackModel.Action) // any call, arrival or timeout elsewhere on the host

  /**
   * An action that is not on this connection: not a call on its socket, nor a connect to or a
   * segment between the same pair of addresses. A segment that reaches a socket over a stale
   * route, whose abort would erase the route of this connection, is excluded as well.
   */
  predicate Elsewhere(s: Stack, e: Endpoint, localIp: u32, act: StackModel.Action) {
    match act
    case ActBind(_, _) => true
    case ActListen(id) => id != e.id
    case ActConnect(id, remote, _) =>
      var wanted := if Alive(s, id) then s.sockets[id].src else Address(0, 0);
      id != e.id && !SamePair(Resolve(s, wanted, localIp).1, remote, e)
    case ActAccept(id) => id != e.id
    case ActSend(id, _) => id != e.id
    case ActRecv(id, _) => id != e.id
    case ActClose(id) => id != e.id
    case ActArrive(src, dst, _, _) =>
      var j := FindConnection(s, src, dst);
      !SamePair(dst, src, e) && (j != 0 ==> !(src == e.remote && s.sockets[j].src == e.local))
    case ActProcessDirty => false
    case ActExpire(expired) => e.id !in expired
  }

  /** The pair of addresses of the connection, in either direction. */
  predicate SamePair(src: Address, dst: Address, e: Endpoint) {
    (src == e.local && dst == e.remote) || (src == e.remote && dst == e.local)
  }

  // ------------------------------------------------------- the steps, taken by side a

  predicate Fits(packets: seq<Packet>) {
    forall p | p in packets :: |p.seg.payload| <= 65495
  }

  /** The packets for the peer among those written. */
  function ToPeer(packets: seq<Packet>, e: Endpoint): (r: seq<Packet>)
    ensures Fits(r)
  {
    if packets == [] then []
    else
      var p, rest := packets[0], ToPeer(packets[1..], e);
      if p.src == e.local && p.dst == e.remote && |p.seg.payload| <= 65495 then [p] + rest else rest
  }

  function Datagrams(packets: seq<Packet>): seq<seq<u8>>
    requires Fits(packets)
  {
    seq(|packets|, i requires 0 <= i < |packets| => Encode(packets[i]))
  }

  /** Side a goes on with stack `next`; what it has written to the peer leaves. */
  function Moved(w: World, e: Endpoint, next: Stack): World {
    var written := if |w.a.stack.out| <= |next.out| then next.out[|w.a.stack.out|..] else [];
    w.(a := w.a.(stack := next), ab := w.ab + Datagrams(ToPeer(written, e)))
  }

  function StepA(w: World, e: Endpoint, act: Action): World {
    var s := w.a.stack;
    match act
    case Write(data) =>
      if Alive(s, e.id) && SendReturns(s.sockets[e.id])
      then w.(a := w.a.(stack := SendOn(s, e.id, data), wrote := w.a.wrote + Taken(s.sockets[e.id].sendBuf, data)))
      else w
    case Daemon => Moved(w, e, ProcessDirty(s))
    case Deliver(iss) => if w.ba == [] then w else Moved(w.(ba := w.ba[1..]), e, IncomingBytes(s, w.ba[0], iss))
    case Read(limit) =>
      if Alive(s, e.id) && RecvReturns(s.sockets[e.id])
      then w.(a := w.a.(stack := RecvOn(s, e.id, limit), read := w.a.read + Received(s.sockets[e.id], limit)))
      else w
    case Other(localIp, act) =>
      if Elsewhere(s, e, localIp, act) then Moved(w, e, StackModel.Next(s, localIp, act)) else w
  }

  function Mirror(w: World): World {
    World(w.b, w.a, w.ba, w.ab)
  }

  function Next(w: World, ea: Endpoint, eb: Endpoint, side: Stream.Side, act: Action): World {
    if side.SideA? then StepA(w, ea, act) else Mirror(StepA(Mirror(w), eb, act))
  }

  function Run(w: World, ea: Endpoint, eb: Endpoint, schedule: seq<(Stream.Side, Action)>): World
    decreases |schedule|
  {
    if schedule == [] then w else Run(Next(w, ea, eb, schedule[0].0, schedule[0].1), ea, eb, schedule[1..])
  }

  // ------------------------------------------------------- the refinement

  /**
   * The connection has its socket, its route and its addresses to itself: no second socket for
   * the same pair, no second route to the socket, and the socket is not bound to a port.
   */
  ghost predicate Apart(s: Stack, e: Endpoint) {
    && Routing.Serves(s, e.id, e.local, e.remote) && (e.local, e.remote) !in s.conns
    && e.local != Address(0, 0) && e.remote != Address(0, 0) && e.id < s.nextId
    && (forall j | j in s.sockets && j != e.id :: !SamePair(s.sockets[j].src, s.sockets[j].dst, e))
    && (forall k | k in s.conns && s.conns[k] == e.id :: k == (e.remote, e.local))
    && (forall port | port in s.listeners :: s.listeners[port] != e.id)
  }

  /** The host holds this end and not the other one. */
  ghost predicate Holds(h: Host, n: Stream.Node, e: Endpoint) {
    Apart(h.stack, e) && h.stack.sockets[e.id] == n.tcb && h.wrote == n.wrote && h.read == n.read
  }

  ghost predicate Small(segs: seq<Segment>) {
    forall p | p in segs :: |p.payload| <= MAX_SEGMENT
  }

  ghost function Octets(segs: seq<Segment>, e: Endpoint): seq<seq<u8>>
    requires Small(segs)
  {
    Datagrams(Addressed(segs, e.local, e.remote))
  }

  ghost predicate Refines(w: World, s: Stream.System, ea: Endpoint, eb: Endpoint) {
    && ea.local == eb.remote && ea.remote == eb.local
    && Stream.Inv(s)
    && Holds(w.a, s.a, ea) && Holds(w.b, s.b, eb)
    && Small(s.ab) && w.ab == Octets(s.ab, ea)
    && Small(s.ba) && w.ba == Octets(s.ba, eb)
  }

  lemma MirrorRefines(w: World, s: Stream.System, ea: Endpoint, eb: Endpoint)
    requires Refines(w, s, ea, eb)
    ensures Refines(Mirror(w), Stream.Mirror(s), eb, ea)
  {
  }

  // ------------------------------------------------------- what leaves a stack

  lemma {:induction false} ToPeerAppend(p: seq<Packet>, q: seq<Packet>, e: Endpoint)
    ensures ToPeer(p + q, e) == ToPeer(p, e) + ToPeer(q, e)
  {
    if p == [] {
      assert p + q == q;
    } else {
      ToPeerAppend(p[1..], q, e);
      assert (p + q)[1..] == p[1..] + q && (p + q)[0] == p[0];
      var rest, behind := ToPeer(p[1..], e), ToPeer(q, e);
      assert [p[0]] + (rest + behind) == ([p[0]] + rest) + behind;
    }
  }

  lemma {:induction false} OwnPackets(segs: seq<Segment>, e: Endpoint)
    requires Small(segs)
    ensures ToPeer(Addressed(segs, e.local, e.remote), e) == Addressed(segs, e.local, e.remote)
  {
    if segs != [] {
      OwnPackets(segs[1..], e);
      assert Addressed(segs, e.local, e.remote)[1..] == Addressed(segs[1..], e.local, e.remote);
    }
  }

  lemma {:induction false} ForeignPackets(segs: seq<Segment>, src: Address, dst: Address, e: Endpoint)
    requires !(src == e.local && dst == e.remote)
    ensures ToPeer(Addressed(segs, src, dst), e) == []
  {
    if segs != [] {
      ForeignPackets(segs[1..], src, dst, e);
      assert Addressed(segs, src, dst)[1..] == Addressed(segs[1..], src, dst);
    }
  }

  lemma DatagramsAppend(p: seq<Packet>, q: seq<Packet>)
    requires Fits(p) && Fits(q)
    ensures Datagrams(p + q) == Datagrams(p) + Datagrams(q)
  {
  }

  lemma OctetsAppend(p: seq<Segment>, q: seq<Segment>, e: Endpoint)
    requires Small(p) && Small(q)
    ensures Small(p + q) && Octets(p + q, e) == Octets(p, e) + Octets(q, e)
  {
    assert Addressed(p + q, e.local, e.remote) == Addressed(p, e.local, e.remote) + Addressed(q, e.local, e.remote);
    DatagramsAppend(Addressed(p, e.local, e.remote), Addressed(q, e.local, e.remote));
  }

  /** A step of this end: its block and the channel move as in `Stream`. */
  lemma OwnStep(w: World, s: Stream.System, ea: Endpoint, eb: Endpoint, next: Stack, s': Stream.System, out: seq<Segment>)
    requires Refines(w, s, ea, eb) && Stream.Inv(s') && Small(out)
    requires s'.b == s.b && s'.ba == s.ba && s'.ab == s.ab + out
    requires next.out == w.a.stack.out + Addressed(out, ea.local, ea.remote)
    requires Holds(w.a.(stack := next), s'.a, ea)
    ensures Refines(Moved(w, ea, next), s', ea, eb)
  {
    assert next.out[|w.a.stack.out|..] == Addressed(out, ea.local, ea.remote);
    OwnPackets(out, ea);
    OctetsAppend(s.ab, out, ea);
  }

  /** A step of another socket: nothing of this connection moves. */
  lemma ForeignStep(w: World, s: Stream.System, ea: Endpoint, eb: Endpoint, next: Stack, out: seq<Segment>, src: Address, dst: Address)
    requires Refines(w, s, ea, eb) && !(src == ea.local && dst == ea.remote)
    requires next.out == w.a.stack.out + Addressed(out, src, dst)
    requires Holds(w.a.(stack := next), s.a, ea)
    ensures Refines(Moved(w, ea, next), s, ea, eb)
  {
    assert next.out[|w.a.stack.out|..] == Addressed(out, src, dst);
    ForeignPackets(out, src, dst, ea);
    assert w.ab + [] == w.ab;
  }

  // ------------------------------------------------------- the daemon

  /** The output of a stack only grows. */
  predicate Grows(s: Stack, s': Stack) {
    s.out <= s'.out
  }

  lemma ProcessOneRefines(w: World, s: Stream.System, ea: Endpoint, eb: Endpoint, id: SocketId) returns (s': Stream.System)
    requires Refines(w, s, ea, eb)
    ensures Refines(Moved(w, ea, ProcessOne(w.a.stack, id)), s', ea, eb)
    ensures Grows(w.a.stack, ProcessOne(w.a.stack, id))
  {
    s' := s;
    if !Alive(w.a.stack, id) {
      ForeignStep(w, s, ea, eb, w.a.stack, [], ea.remote, ea.local);
    } else if id == ea.id {
      QueueDrain.ProcessOneShape(w.a.stack, id);
      TransmitRefines(w, s, ea, eb);
      s' := Stream.StepA(s, Stream.Transmit);
    } else {
      QueueDrain.ProcessOneShape(w.a.stack, id);
      OtherSocketRefines(w, s, ea, eb, id);
    }
  }

  lemma TransmitRefines(w: World, s: Stream.System, ea: Endpoint, eb: Endpoint)
    requires Refines(w, s, ea, eb)
    ensures Refines(Moved(w, ea, ProcessOne(w.a.stack, ea.id)), Stream.StepA(s, Stream.Transmit), ea, eb)
  {
    var t := w.a.stack.sockets[ea.id];
    QueueDrain.ProcessOneShape(w.a.stack, ea.id);
    Lifecycle.SendingSteady(t);
    Stream.TransmitKeepsInv(s);
    SendingFits(t);
    OwnStep(w, s, ea, eb, ProcessOne(w.a.stack, ea.id), Stream.StepA(s, Stream.Transmit), ProcessBlock(t).out);
  }

  lemma OtherSocketRefines(w: World, s: Stream.System, ea: Endpoint, eb: Endpoint, id: SocketId)
    requires Refines(w, s, ea, eb) && Alive(w.a.stack, id) && id != ea.id
    ensures Refines(Moved(w, ea, ProcessOne(w.a.stack, id)), s, ea, eb)
  {
    var t := w.a.stack.sockets[id];
    QueueDrain.ProcessOneShape(w.a.stack, id);
    Lifecycle.SendingSteady(t);
    ForeignStep(w, s, ea, eb, ProcessOne(w.a.stack, id), ProcessBlock(t).out, t.src, t.dst);
  }

  /** Two stretches of output, one after the other. */
  lemma MovedTwice(w: World, e: Endpoint, m: Stack, next: Stack)
    requires Grows(w.a.stack, m) && Grows(m, next)
    ensures Moved(w, e, next) == Moved(Moved(w, e, m), e, next)
    ensures Grows(w.a.stack, next)
  {
    var i, j := |w.a.stack.out|, |m.out|;
    var p, q := m.out[i..], next.out[j..];
    assert next.out[i..] == p + q;
    ToPeerAppend(p, q, e);
    DatagramsAppend(ToPeer(p, e), ToPeer(q, e));
    assert w.ab + (Datagrams(ToPeer(p, e)) + Datagrams(ToPeer(q, e))) == (w.ab + Datagrams(ToPeer(p, e))) + Datagrams(ToPeer(q, e));
  }

  lemma {:induction false} ProcessAllRefines(w: World, s: Stream.System, ea: Endpoint, eb: Endpoint, ids: seq<SocketId>)
    returns (s': Stream.System)
    requires Refines(w, s, ea, eb)
    ensures Refines(Moved(w, ea, ProcessAll(w.a.stack, ids)), s', ea, eb)
    ensures Grows(w.a.stack, ProcessAll(w.a.stack, ids))
    decreases |ids|
  {
    if ids == [] {
      ForeignStep(w, s, ea, eb, w.a.stack, [], ea.remote, ea.local);
      s' := s;
    } else {
      var m := ProcessOne(w.a.stack, ids[0]);
      s' := ProcessOneRefines(w, s, ea, eb, ids[0]);
      s' := ProcessAllRefines(Moved(w, ea, m), s', ea, eb, ids[1..]);
      MovedTwice(w, ea, m, ProcessAll(m, ids[1..]));
    }
  }

  lemma DaemonRefines(w: World, s: Stream.System, ea: Endpoint, eb: Endpoint) returns (s': Stream.System)
    requires Refines(w, s, ea, eb)
    ensures Refines(StepA(w, ea, Daemon), s', ea, eb)
  {
    var swapped := w.(a := w.a.(stack := w.a.stack.(dirty := [])));
    s' := ProcessAllRefines(swapped, s, ea, eb, w.a.stack.dirty);
  }

  // ------------------------------------------------------- the other steps

  lemma DeliverRefines(w: World, s: Stream.System, ea: Endpoint, eb: Endpoint, iss: u32)
    requires Refines(w, s, ea, eb)
    ensures Refines(StepA(w, ea, Deliver(iss)), Stream.StepA(s, Stream.Deliver), ea, eb)
  {
    if w.ba != [] {
      var p, t := s.ba[0], s.a.tcb;
      var r, next := Receive(t, p), IncomingBytes(w.a.stack, w.ba[0], iss);
      assert w.ba[0] == Encode(Packet(eb.local, eb.remote, p));
      BytesRefineSegments(w.a.stack, Packet(eb.local, eb.remote, p), iss);
      Routing.DeliveryIsHandlerStep(w.a.stack, ea.id, ea.local, ea.remote, p, iss);
      Stream.DeliverKeepsInv(s);
      RepliesAreEmpty(t, p);
      TakeOldest(w, s, ea, eb, next, Stream.StepA(s, Stream.Deliver), r.tcb, r.out);
    }
  }

  lemma TakeOldest(w: World, s: Stream.System, ea: Endpoint, eb: Endpoint, next: Stack, s': Stream.System, t: Tcb, out: seq<Segment>)
    requires Refines(w, s, ea, eb) && s.ba != [] && Small(out) && Stream.Inv(s')
    requires s' == Stream.System(s.a.(tcb := t), s.b, s.ab + out, s.ba[1..])
    requires next.out == w.a.stack.out + Addressed(out, ea.local, ea.remote)
    requires next.sockets == w.a.stack.sockets[ea.id := t] && next.conns == w.a.stack.conns
    requires next.listeners == w.a.stack.listeners && next.nextId == w.a.stack.nextId
    requires Routing.Serves(next, ea.id, ea.local, ea.remote)
    ensures Refines(Moved(w.(ba := w.ba[1..]), ea, next), s', ea, eb)
  {
    assert next.out[|w.a.stack.out|..] == Addressed(out, ea.local, ea.remote);
    OwnPackets(out, ea);
    OctetsAppend(s.ab, out, ea);
    assert Octets(s.ba[1..], eb) == Octets(s.ba, eb)[1..];
  }

  lemma WriteRefines(w: World, s: Stream.System, ea: Endpoint, eb: Endpoint, data: seq<u8>)
    requires Refines(w, s, ea, eb)
    ensures Refines(StepA(w, ea, Write(data)), Stream.StepA(s, Stream.Write(data)), ea, eb)
  {
    Stream.WriteKeepsInv(s, data);
    if SendReturns(s.a.tcb) {
      CallRefines(w, s, ea, eb, StepA(w, ea, Write(data)), Stream.StepA(s, Stream.Write(data)));
    }
  }

  lemma ReadRefines(w: World, s: Stream.System, ea: Endpoint, eb: Endpoint, limit: nat)
    requires Refines(w, s, ea, eb)
    ensures Refines(StepA(w, ea, Read(limit)), Stream.StepA(s, Stream.Read(limit)), ea, eb)
  {
    Stream.ReadKeepsInv(s, limit);
    if RecvReturns(s.a.tcb) {
      CallRefines(w, s, ea, eb, StepA(w, ea, Read(limit)), Stream.StepA(s, Stream.Read(limit)));
    }
  }

  /** A user call changes the one block and the history, and sends nothing. */
  lemma CallRefines(w: World, s: Stream.System, ea: Endpoint, eb: Endpoint, w': World, s': Stream.System)
    requires Refines(w, s, ea, eb) && Stream.Inv(s')
    requires s' == s.(a := s'.a) && w' == w.(a := w'.a)
    requires w'.a.stack.listeners == w.a.stack.listeners && w'.a.stack.nextId == w.a.stack.nextId
    requires w'.a.stack.conns == w.a.stack.conns && w'.a.stack.sockets == w.a.stack.sockets[ea.id := s'.a.tcb]
    requires s'.a.tcb.src == s.a.tcb.src && s'.a.tcb.dst == s.a.tcb.dst
    requires w'.a.wrote == s'.a.wrote && w'.a.read == s'.a.read
    ensures Refines(w', s', ea, eb)
  {
  }

  lemma StepARefines(w: World, s: Stream.System, ea: Endpoint, eb: Endpoint, act: Action) returns (s': Stream.System)
    requires Refines(w, s, ea, eb)
    ensures Refines(StepA(w, ea, act), s', ea, eb)
  {
    match act
    case Write(data) =>
      WriteRefines(w, s, ea, eb, data);
      s' := Stream.StepA(s, Stream.Write(data));
    case Daemon =>
      s' := DaemonRefines(w, s, ea, eb);
    case Deliver(iss) =>
      DeliverRefines(w, s, ea, eb, iss);
      s' := Stream.StepA(s, Stream.Deliver);
    case Read(limit) =>
      ReadRefines(w, s, ea, eb, limit);
      s' := Stream.StepA(s, Stream.Read(limit));
    case Other(localIp, other) =>
      if Elsewhere(w.a.stack, ea, localIp, other) { OtherRefines(w, s, ea, eb, localIp, other); }
      s' := s;
  }

  // ------------------------------------------------------- the rest of the host

  /** The connection is untouched, and nothing goes out to the peer. */
  ghost predicate Kept(s: Stack, s': Stack, e: Endpoint) {
    && Apart(s', e) && e.id in s.sockets && s'.sockets[e.id] == s.sockets[e.id]
    && Grows(s, s') && ToPeer(s'.out[|s.out|..], e) == []
  }

  lemma KeptTwice(s: Stack, m: Stack, s': Stack, e: Endpoint)
    requires Kept(s, m, e) && Kept(m, s', e)
    ensures Kept(s, s', e)
  {
    var i, j := |s.out|, |m.out|;
    assert s'.out[i..] == m.out[i..] + s'.out[j..];
    ToPeerAppend(m.out[i..], s'.out[j..], e);
  }

  /** The output grows by segments between other addresses. */
  lemma ForeignOutput(s: Stack, s': Stack, segs: seq<Segment>, src: Address, dst: Address, e: Endpoint)
    requires s'.out == s.out + Addressed(segs, src, dst) && !(src == e.local && dst == e.remote)
    ensures Grows(s, s') && ToPeer(s'.out[|s.out|..], e) == []
  {
    assert s'.out[|s.out|..] == Addressed(segs, src, dst);
    ForeignPackets(segs, src, dst, e);
  }

  lemma SameOutput(s: Stack, s': Stack, e: Endpoint)
    requires s'.out == s.out
    ensures Grows(s, s') && ToPeer(s'.out[|s.out|..], e) == []
  {
  }

  /** A step of another socket; its abort must not name the route of this connection. */
  lemma OtherStep(s: Stack, e: Endpoint, j: SocketId, r: ControlBlock.Step, remote: Address)
    requires Apart(s, e) && Alive(s, j) && j != e.id
    requires r.tcb.src == s.sockets[j].src && r.tcb.dst == s.sockets[j].dst
    requires r.effect.AbortSocket? ==> !(remote == e.remote && r.tcb.src == e.local)
    ensures Kept(s, Apply(s, j, r, remote), e)
  {
    var m, s' := Store(s, j, r), Apply(s, j, r, remote);
    assert Apart(m, e) && m.sockets[e.id] == s.sockets[e.id];
    SettleApart(m, e, j, r, remote);
    ForeignOutput(s, s', r.out, r.tcb.src, r.tcb.dst, e);
  }

  lemma SettleApart(s: Stack, e: Endpoint, j: SocketId, r: ControlBlock.Step, remote: Address)
    requires Apart(s, e) && j != e.id && !SamePair(r.tcb.src, r.tcb.dst, e)
    requires r.effect.AbortSocket? ==> !(remote == e.remote && r.tcb.src == e.local)
    ensures var s' := Settle(s, j, r, remote);
      Apart(s', e) && s'.sockets[e.id] == s.sockets[e.id] && s'.out == s.out
  {
  }

  lemma {:induction false} OtherTimeouts(s: Stack, e: Endpoint, ids: seq<SocketId>)
    requires Apart(s, e) && e.id !in ids
    ensures Kept(s, RetransmitAll(s, ids), e)
    decreases |ids|
  {
    if ids == [] {
      SameOutput(s, s, e);
    } else if Alive(s, ids[0]) {
      var r := Retransmit(s.sockets[ids[0]]);
      Lifecycle.SendingSteady(s.sockets[ids[0]]);
      Lifecycle.RetransmitKeeps(s.sockets[ids[0]]);
      var m := Apply(s, ids[0], r, s.sockets[ids[0]].dst);
      OtherStep(s, e, ids[0], r, s.sockets[ids[0]].dst);
      OtherTimeouts(m, e, ids[1..]);
      KeptTwice(s, m, RetransmitAll(m, ids[1..]), e);
    } else {
      OtherTimeouts(s, e, ids[1..]);
    }
  }

  lemma OtherArrival(s: Stack, e: Endpoint, src: Address, dst: Address, p: Segment, iss: u32)
    requires Apart(s, e) && Elsewhere(s, e, 0, ActArrive(src, dst, p, iss))
    ensures Kept(s, Incoming(s, src, dst, p, iss), e)
  {
    var j, s' := FindConnection(s, src, dst), Incoming(s, src, dst, p, iss);
    if j != 0 && !s.sockets[j].state.Closed? && !s.sockets[j].state.Listen? {
      assert j != e.id;
      Lifecycle.ReceiveSteady(s.sockets[j], p);
      OtherStep(s, e, j, Receive(s.sockets[j], p), src);
    } else {
      OtherRefusal(s, e, src, dst, p);
      OtherOpen(s, e, src, dst, p, iss);
    }
  }

  lemma OtherRefusal(s: Stack, e: Endpoint, src: Address, dst: Address, p: Segment)
    requires Apart(s, e) && !SamePair(dst, src, e)
    ensures Kept(s, Refuse(s, src, dst, p), e)
  {
    ForeignOutput(s, Refuse(s, src, dst, p), ClosedReset(p), dst, src, e);
  }

  lemma OtherOpen(s: Stack, e: Endpoint, src: Address, dst: Address, p: Segment, iss: u32)
    requires Apart(s, e) && !SamePair(dst, src, e)
    ensures Kept(s, PassiveOpen(s, src, dst, p, iss), e)
  {
    if FindListener(s, dst.port) != 0 && p.syn && !p.ack {
      var child := PassiveChild(s.nextId, dst, src, p, iss);
      ForeignOutput(s, PassiveOpen(s, src, dst, p, iss), [SynAckOf(child)], dst, src, e);
    } else {
      SameOutput(s, s, e);
    }
  }

  lemma OtherBind(s: Stack, e: Endpoint, addr: Address, localIp: u32, iss: u32)
    requires Apart(s, e)
    ensures Kept(s, Bind(s, addr, localIp, iss), e)
  {
    SameOutput(s, Bind(s, addr, localIp, iss), e);
  }

  lemma OtherConnect(s: Stack, e: Endpoint, localIp: u32, id: SocketId, remote: Address, iss: u32)
    requires Apart(s, e) && Elsewhere(s, e, localIp, ActConnect(id, remote, iss))
    ensures Kept(s, Connect(s, id, remote, localIp, iss), e)
  {
    SameOutput(s, Connect(s, id, remote, localIp, iss), e);
  }

  lemma OtherCall(s: Stack, e: Endpoint, localIp: u32, act: StackModel.Action)
    requires Apart(s, e) && Elsewhere(s, e, localIp, act)
    requires act.ActListen? || act.ActAccept? || act.ActSend? || act.ActRecv?
    ensures Kept(s, StackModel.Next(s, localIp, act), e)
  {
    SameOutput(s, StackModel.Next(s, localIp, act), e);
  }

  lemma ElsewhereKeeps(s: Stack, e: Endpoint, localIp: u32, act: StackModel.Action)
    requires Apart(s, e) && Elsewhere(s, e, localIp, act)
    ensures Kept(s, StackModel.Next(s, localIp, act), e)
  {
    match act
    case ActBind(addr, iss) => OtherBind(s, e, addr, localIp, iss);
    case ActConnect(id, remote, iss) => OtherConnect(s, e, localIp, id, remote, iss);
    case ActArrive(src, dst, p, iss) => OtherArrival(s, e, src, dst, p, iss);
    case ActExpire(expired) => OtherTimeouts(s, e, expired);
    case ActClose(id) =>
      if Alive(s, id) {
        Lifecycle.SendingSteady(s.sockets[id]);
        CloseNeverAborts(s.sockets[id]);
        OtherStep(s, e, id, CloseConnection(s.sockets[id]), s.sockets[id].dst);
      } else {
        SameOutput(s, s, e);
      }
    case _ => OtherCall(s, e, localIp, act);
  }

  lemma CloseNeverAborts(t: Tcb)
    ensures !CloseConnection(t).effect.AbortSocket?
  {
  }

  lemma OtherRefines(w: World, s: Stream.System, ea: Endpoint, eb: Endpoint, localIp: u32, act: StackModel.Action)
    requires Refines(w, s, ea, eb) && Elsewhere(w.a.stack, ea, localIp, act)
    ensures Refines(Moved(w, ea, StackModel.Next(w.a.stack, localIp, act)), s, ea, eb)
  {
    ElsewhereKeeps(w.a.stack, ea, localIp, act);
    assert w.ab + [] == w.ab;
  }

  // ------------------------------------------------------- runs

  /** The payloads of the datagrams on a channel, as the receiving end will parse them. */
  function Payloads(channel: seq<seq<u8>>): seq<u8> {
    if channel == [] then []
    else
      var first := match Decode(channel[0]) case None => [] case Some(p) => p.seg.payload;
      first + Payloads(channel[1..])
  }

  lemma {:induction false} OctetsCarryPayloads(segs: seq<Segment>, e: Endpoint)
    requires Small(segs)
    ensures Payloads(Octets(segs, e)) == Stream.Payloads(segs)
  {
    if segs != [] {
      OctetsCarryPayloads(segs[1..], e);
      FirstOctets(segs, e);
    }
  }

  /** The oldest datagram parses as the oldest segment. */
  lemma FirstOctets(segs: seq<Segment>, e: Endpoint)
    requires Small(segs) && segs != []
    ensures Octets(segs, e) != [] && Octets(segs, e)[1..] == Octets(segs[1..], e)
    ensures Decode(Octets(segs, e)[0]) == Some(Packet(e.local, e.remote, segs[0]))
  {
    PacketRoundTrip(Packet(e.local, e.remote, segs[0]));
  }

  lemma {:induction false} RunRefines(w: World, s: Stream.System, ea: Endpoint, eb: Endpoint, schedule: seq<(Stream.Side, Action)>)
    returns (s': Stream.System)
    requires Refines(w, s, ea, eb)
    ensures Refines(Run(w, ea, eb, schedule), s', ea, eb)
    decreases |schedule|
  {
    s' := s;
    if schedule != [] {
      var (side, act) := schedule[0];
      if side.SideA? {
        s' := StepARefines(w, s, ea, eb, act);
      } else {
        MirrorRefines(w, s, ea, eb);
        s' := StepARefines(Mirror(w), Stream.Mirror(s), eb, ea, act);
        MirrorRefines(StepA(Mirror(w), eb, act), s', eb, ea);
        s' := Stream.Mirror(s');
      }
      s' := RunRefines(Next(w, ea, eb, side, act), s', ea, eb, schedule[1..]);
    }
  }

  /** Two hosts whose handshake is over, nothing written and nothing on the wire. */
  ghost predicate Connected(w: World, ea: Endpoint, eb: Endpoint) {
    && ea.local == eb.remote && ea.remote == eb.local
    && w.ab == w.ba == [] && w.a.wrote == w.a.read == w.b.wrote == w.b.read == []
    && ea.id in w.a.stack.sockets && eb.id in w.b.stack.sockets
    && var s := Stream.System(Stream.Node(w.a.stack.sockets[ea.id], [], []), Stream.Node(w.b.stack.sockets[eb.id], [], []), [], []);
    && Holds(w.a, s.a, ea) && Holds(w.b, s.b, eb) && Stream.Synchronised(s)
  }

  /** What `x` wrote is read, buffered at `y`, on the wire or unsent, in this order; what comes next fits. */
  ghost predicate Conserved(x: Host, y: Host, xy: seq<seq<u8>>, ex: Endpoint, ey: Endpoint) {
    && ex.id in x.stack.sockets && ey.id in y.stack.sockets
    && var t, u := x.stack.sockets[ex.id], y.stack.sockets[ey.id];
    && y.read + u.recvBuf + Payloads(xy) + Stream.Unsent(t) == x.wrote
    && (xy != [] ==>
          var p := Decode(xy[0]);
          p.Some? && |p.value.seg.payload| <= CAPACITY - |u.recvBuf| && !Receive(u, p.value.seg).blocked)
  }

  lemma RefinesConserved(w: World, s: Stream.System, ea: Endpoint, eb: Endpoint)
    requires Refines(w, s, ea, eb)
    ensures Conserved(w.a, w.b, w.ab, ea, eb)
  {
    Stream.InvImpliesConserved(s.a, s.b, s.ab, s.ba);
    OctetsCarryPayloads(s.ab, ea);
    if w.ab != [] {
      Stream.InvImpliesFits(s.a, s.b, s.ab, s.ba);
      FirstOctets(s.ab, ea);
    }
  }

  /**
   * In every interleaving of writes and reads, daemon rounds over the whole dirty queue,
   * deliveries of octets, and whatever else goes on elsewhere on the two hosts: nothing that
   * one application wrote is lost, repeated or reordered, and every datagram parses and fits
   * where it arrives.
   */
  lemma OctetStreamsAreConserved(w: World, ea: Endpoint, eb: Endpoint, schedule: seq<(Stream.Side, Action)>)
    requires Connected(w, ea, eb)
    ensures var w' := Run(w, ea, eb, schedule);
      Conserved(w'.a, w'.b, w'.ab, ea, eb) && Conserved(w'.b, w'.a, w'.ba, eb, ea)
  {
    var s := Stream.System(Stream.Node(w.a.stack.sockets[ea.id], [], []), Stream.Node(w.b.stack.sockets[eb.id], [], []), [], []);
    Stream.SynchronisedImpliesFlow(s.a, s.b);
    Stream.SynchronisedImpliesFlow(s.b, s.a);
    var s' := RunRefines(w, s, ea, eb, schedule);
    var w' := Run(w, ea, eb, schedule);
    RefinesConserved(w', s', ea, eb);
    MirrorRefines(w', s', ea, eb);
    RefinesConserved(Mirror(w'), Stream.Mirror(s'), eb, ea);
  }
}

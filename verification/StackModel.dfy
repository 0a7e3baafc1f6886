/**
 * The stack around the control blocks, on values: the table that owns the sockets, the
 * listener and connection routes, the dirty queue and the packets written. Each function is
 * one locked region, user call or daemon action of the program.
 */
module StackModel {
  import opened Words
  import opened ControlBlock
  import Ports

  datatype Packet = Packet(src: Address, dst: Address, seg: Segment)

  /** `conns` is keyed by (remote, local); identifiers start at 1 and 0 means "none". */
  datatype Stack = Stack(
    sockets: map<SocketId, Tcb>, nextId: SocketId,
    listeners: map<u16, SocketId>, conns: map<(Address, Address), SocketId>,
    dirty: seq<SocketId>, nextPort: u16, out: seq<Packet>)

  // ---------------------------------------------------------------- tables

  predicate Alive(s: Stack, id: SocketId) {
    id != 0 && id in s.sockets
  }

  function CreateSocket(s: Stack, state: State, src: Address, dst: Address): Stack {
    s.(sockets := s.sockets[s.nextId := FreshTcb(s.nextId, state, src, dst)], nextId := s.nextId + 1)
  }

  function DestroySocket(s: Stack, id: SocketId): Stack {
    if id == 0 then s else s.(sockets := s.sockets - {id})
  }

  function FindListener(s: Stack, port: u16): SocketId {
    if port in s.listeners && Alive(s, s.listeners[port]) then s.listeners[port] else 0
  }

  function BoundPorts(s: Stack): set<u16> {
    set port | port in s.listeners && Alive(s, s.listeners[port])
  }

  function FindConnection(s: Stack, remote: Address, local: Address): SocketId {
    if (remote, local) in s.conns && Alive(s, s.conns[(remote, local)]) then s.conns[(remote, local)] else 0
  }

  function Route(s: Stack, remote: Address, local: Address, id: SocketId): Stack {
    s.(conns := s.conns[(remote, local) := id])
  }

  function EraseRoute(s: Stack, remote: Address, local: Address): Stack {
    s.(conns := s.conns - {(remote, local)})
  }

  function DestroyRoute(s: Stack, remote: Address, local: Address): Stack {
    if (remote, local) in s.conns
    then DestroySocket(EraseRoute(s, remote, local), s.conns[(remote, local)])
    else s
  }

  function AddDirty(s: Stack, id: SocketId): Stack {
    if Alive(s, id) then s.(dirty := s.dirty + [id]) else s
  }

  function PushAccept(s: Stack, listener: SocketId, id: SocketId): Stack {
    if Alive(s, listener) then
      var t := s.sockets[listener];
      s.(sockets := s.sockets[listener := t.(acceptQueue := t.acceptQueue + [id])])
    else s
  }

  // ---------------------------------------------------------------- output

  function Addressed(segs: seq<Segment>, src: Address, dst: Address): seq<Packet> {
    seq(|segs|, i requires 0 <= i < |segs| => Packet(src, dst, segs[i]))
  }

  function Write(s: Stack, segs: seq<Segment>, src: Address, dst: Address): Stack {
    s.(out := s.out + Addressed(segs, src, dst))
  }

  // ---------------------------------------------------------------- steps of one socket

  /** Store the outcome of a step of socket `id`, write its segments, queue it if asked. */
  function Store(s: Stack, id: SocketId, r: Step): Stack {
    var stored := Write(s.(sockets := s.sockets[id := r.tcb]), r.out, r.tcb.src, r.tcb.dst);
    if r.dirty then AddDirty(stored, id) else stored
  }

  /** Do what the step asks of the tables. Teardown passes (local, remote) to `destroy_connection`. */
  function Settle(s: Stack, id: SocketId, r: Step, remote: Address): Stack {
    match r.effect
    case Keep => s
    case DestroyConnection => DestroyRoute(s, r.tcb.src, r.tcb.dst)
    case AbortSocket => DestroySocket(EraseRoute(s, remote, r.tcb.src), id)
    case EnqueueAccept => PushAccept(s, FindListener(s, r.tcb.src.port), id)
  }

  function Apply(s: Stack, id: SocketId, r: Step, remote: Address): Stack {
    Settle(Store(s, id, r), id, r, remote)
  }

  /** `process_block_` on an identifier taken from the dirty queue. */
  function ProcessOne(s: Stack, id: SocketId): Stack {
    if Alive(s, id) then Apply(s, id, ProcessBlock(s.sockets[id]), s.sockets[id].dst) else s
  }

  function ProcessAll(s: Stack, ids: seq<SocketId>): Stack
    decreases |ids|
  {
    if ids == [] then s else ProcessAll(ProcessOne(s, ids[0]), ids[1..])
  }

  /** `process_dirty_blocks_`: the queue is swapped out and worked off in order. */
  function ProcessDirty(s: Stack): Stack {
    ProcessAll(s.(dirty := []), s.dirty)
  }

  /** `check_retransmissions_` over the sockets whose timers have expired. */
  function RetransmitAll(s: Stack, expired: seq<SocketId>): Stack
    decreases |expired|
  {
    if expired == [] then s
    else
      var id := expired[0];
      RetransmitAll(if Alive(s, id) then Apply(s, id, Retransmit(s.sockets[id]), s.sockets[id].dst) else s, expired[1..])
  }

  // ---------------------------------------------------------------- incoming segments

  /** A reset in answer to `p`, sent back the way it came. */
  function Refuse(s: Stack, src: Address, dst: Address, p: Segment): Stack {
    Write(s, ClosedReset(p), dst, src)
  }

  function PassiveOpen(s: Stack, src: Address, dst: Address, p: Segment, iss: u32): Stack {
    if FindListener(s, dst.port) != 0 && p.syn && !p.ack then
      var child := PassiveChild(s.nextId, dst, src, p, iss);
      var created := s.(sockets := s.sockets[s.nextId := child], nextId := s.nextId + 1);
      Write(Route(created, src, dst, s.nextId), [SynAckOf(child)], dst, src)
    else s
  }

  /** `process_incoming_packet_` after parsing; `iss` is the number drawn for a new child. */
  function Incoming(s: Stack, src: Address, dst: Address, p: Segment, iss: u32): Stack {
    var id := FindConnection(s, src, dst);
    if id == 0 then
      if FindListener(s, dst.port) != 0 && p.syn && !p.ack then PassiveOpen(s, src, dst, p, iss)
      else Refuse(s, src, dst, p)
    else
      var t := s.sockets[id];
      if t.state.Closed? then Refuse(s, src, dst, p)
      else if t.state.Listen? then PassiveOpen(s, src, dst, p, iss)
      else Apply(s, id, Receive(t, p), src)
  }

  // ---------------------------------------------------------------- user calls

  /** Zero address and port are replaced by the interface's address and an ephemeral port. */
  function Resolve(s: Stack, addr: Address, localIp: u32): (Stack, Address) {
    var ip := if addr.ip == 0 then localIp else addr.ip;
    if addr.port == 0 then
      var r := Ports.Probe(BoundPorts(s), s.nextPort, Ports.PROBES);
      (s.(nextPort := r.next), Address(ip, r.port))
    else (s, Address(ip, addr.port))
  }

  function Bind(s: Stack, addr: Address, localIp: u32, iss: u32): Stack {
    var (s0, local) := Resolve(s, addr, localIp);
    var s1 := CreateSocket(s0, Closed, local, Address(0, 0));
    s1.(listeners := s1.listeners[local.port := s.nextId],
        sockets := s1.sockets[s.nextId := s1.sockets[s.nextId].(iss := iss, sndNxt := iss)])
  }

  function ListenOn(s: Stack, id: SocketId): Stack {
    if Alive(s, id) && s.sockets[id].state.Closed?
    then s.(sockets := s.sockets[id := s.sockets[id].(state := Listen)])
    else s
  }

  /** The socket that `connect` on `id` uses: `id` itself when it exists, else a new one. */
  function ConnectingId(s: Stack, id: SocketId): SocketId {
    if Alive(s, id) then id else s.nextId
  }

  function Connect(s: Stack, id: SocketId, remote: Address, localIp: u32, iss: u32): Stack {
    var wanted := if Alive(s, id) then s.sockets[id].src else Address(0, 0);
    var (s0, local) := Resolve(s, wanted, localIp);
    var s1 :=
      if Alive(s, id) then s0.(sockets := s0.sockets[id := s0.sockets[id].(src := local, dst := remote)])
      else CreateSocket(s0, Closed, local, remote);
    var used := ConnectingId(s, id);
    var s2 := Route(s1, remote, local, used);
    AddDirty(s2.(sockets := s2.sockets[used := StartConnect(s2.sockets[used], iss)]), used)
  }

  /** The child that `accept` returns: the oldest one, 0 where it fails or would wait. */
  function AcceptedChild(s: Stack, id: SocketId): SocketId {
    if Alive(s, id) && s.sockets[id].state.Listen? && s.sockets[id].acceptQueue != []
    then s.sockets[id].acceptQueue[0]
    else 0
  }

  /** The oldest child leaves the queue. */
  function AcceptFrom(s: Stack, id: SocketId): Stack {
    if Alive(s, id) && s.sockets[id].state.Listen? && s.sockets[id].acceptQueue != []
    then s.(sockets := s.sockets[id := s.sockets[id].(acceptQueue := s.sockets[id].acceptQueue[1..])])
    else s
  }

  function SendOn(s: Stack, id: SocketId, data: seq<u8>): Stack {
    if Alive(s, id) && SendReturns(s.sockets[id])
    then AddDirty(s.(sockets := s.sockets[id := Send(s.sockets[id], data)]), id)
    else s
  }

  function RecvOn(s: Stack, id: SocketId, limit: nat): Stack {
    if Alive(s, id) && RecvReturns(s.sockets[id])
    then s.(sockets := s.sockets[id := Recv(s.sockets[id], limit)])
    else s
  }

  function CloseOf(s: Stack, id: SocketId): Stack {
    if Alive(s, id) then Apply(s, id, CloseConnection(s.sockets[id]), s.sockets[id].dst) else s
  }

  // ---------------------------------------------------------------- runs

  datatype Action =
    | ActBind(addr: Address, iss: u32)
    | ActListen(id: SocketId)
    | ActConnect(id: SocketId, remote: Address, iss: u32)
    | ActAccept(id: SocketId)
    | ActSend(id: SocketId, data: seq<u8>)
    | ActRecv(id: SocketId, limit: nat)
    | ActClose(id: SocketId)
    | ActArrive(src: Address, dst: Address, p: Segment, iss: u32)
    | ActProcessDirty
    | ActExpire(expired: seq<SocketId>)

  function Next(s: Stack, localIp: u32, act: Action): Stack {
    match act
    case ActBind(addr, iss) => Bind(s, addr, localIp, iss)
    case ActListen(id) => ListenOn(s, id)
    case ActConnect(id, remote, iss) => Connect(s, id, remote, localIp, iss)
    case ActAccept(id) => AcceptFrom(s, id)
    case ActSend(id, data) => SendOn(s, id, data)
    case ActRecv(id, limit) => RecvOn(s, id, limit)
    case ActClose(id) => CloseOf(s, id)
    case ActArrive(src, dst, p, iss) => Incoming(s, src, dst, p, iss)
    case ActProcessDirty => ProcessDirty(s)
    case ActExpire(expired) => RetransmitAll(s, expired)
  }

  function Run(s: Stack, localIp: u32, acts: seq<Action>): Stack
    decreases |acts|
  {
    if acts == [] then s else Run(Next(s, localIp, acts[0]), localIp, acts[1..])
  }

  /** The stack as constructed. */
  const EMPTY := Stack(map[], 1, map[], map[], [], Ports.FIRST, [])
}

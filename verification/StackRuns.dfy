/**
 * Properties of every run of the stack: a socket with work is in the dirty queue; connection
 * states only rise; and a child enters an accept queue at most once.
 */
module StackRuns {
  import opened Words
  import opened ControlBlock
  import opened Lifecycle
  import opened StackModel
  import Ports

  ghost predicate Coherent(s: Stack) {
    && 0 !in s.sockets && 1 <= s.nextId
    && forall id | id in s.sockets ::
         id < s.nextId && s.sockets[id].id == id && !s.sockets[id].state.TimeWait?
  }

  /** Every socket with work is in the dirty queue or in the batch being worked off. */
  ghost predicate Awake(s: Stack, batch: seq<SocketId>) {
    forall id | id in s.sockets :: Quiet(s.sockets[id]) && (HasWork(s.sockets[id]) ==> id in s.dirty || id in batch)
  }

  /** How the sockets of `s'` come from those of `s`; the state of `except` may move freely. */
  ghost predicate Evolves(s: Stack, s': Stack, except: SocketId) {
    && s.nextId <= s'.nextId
    && forall id | id in s'.sockets ::
         if id in s.sockets
         then Link(s.sockets[id], s'.sockets[id]) && (id != except ==> Rises(s.sockets[id], s'.sockets[id]))
         else s.nextId <= id < s'.nextId && s'.sockets[id].id == id && !s'.sockets[id].state.TimeWait?
  }

  /** No socket of `s'` has gained work that is not queued. */
  ghost predicate StaysAwake(s: Stack, s': Stack) {
    forall id | id in s'.sockets ::
      if id in s.sockets
      then Wakes(s.sockets[id], s'.sockets[id], id in s'.dirty)
      else Quiet(s'.sockets[id]) && (HasWork(s'.sockets[id]) ==> id in s'.dirty) && !s'.sockets[id].state.CloseWait?
  }

  ghost predicate DirtyGrows(s: Stack, s': Stack) {
    forall id | id in s.dirty :: id in s'.dirty
  }

  lemma EvolvesKeepsCoherent(s: Stack, s': Stack, except: SocketId)
    requires Coherent(s) && Evolves(s, s', except)
    ensures Coherent(s')
  {
  }

  lemma StaysAwakeKeepsAwake(s: Stack, s': Stack, batch: seq<SocketId>)
    requires Awake(s, batch) && StaysAwake(s, s') && DirtyGrows(s, s')
    ensures Awake(s', batch)
  {
  }

  lemma EvolvesTransitive(s: Stack, m: Stack, s': Stack)
    requires Coherent(s) && Coherent(m) && Evolves(s, m, 0) && Evolves(m, s', 0)
    ensures Evolves(s, s', 0)
  {
    forall id | id in s'.sockets && id in s.sockets
      ensures Link(s.sockets[id], s'.sockets[id]) && (id != 0 ==> Rises(s.sockets[id], s'.sockets[id]))
    {
      assert id in m.sockets;
    }
  }

  // ------------------------------------------------------- one operation at a time

  ghost predicate SameButQueue(t: Tcb, t': Tcb) {
    t' == t.(acceptQueue := t'.acceptQueue)
  }

  /** What storing a step does: one socket changes, others at most gain an accept entry. */
  lemma ApplyShape(s: Stack, id: SocketId, r: Step, remote: Address)
    requires Alive(s, id)
    ensures var s' := Apply(s, id, r, remote);
      && s'.nextId == s.nextId && s'.sockets.Keys <= s.sockets.Keys
      && (forall j | j in s'.sockets :: SameButQueue(if j == id then r.tcb else s.sockets[j], s'.sockets[j]))
      && DirtyGrows(s, s') && (r.dirty ==> id in s'.dirty)
  {
    SettleShape(Store(s, id, r), id, r, remote);
  }

  lemma SettleShape(s: Stack, id: SocketId, r: Step, remote: Address)
    ensures var s' := Settle(s, id, r, remote);
      && s'.nextId == s.nextId && s'.dirty == s.dirty && s'.sockets.Keys <= s.sockets.Keys
      && (forall j | j in s'.sockets :: SameButQueue(s.sockets[j], s'.sockets[j]))
  {
  }

  lemma ApplyEvolves(s: Stack, id: SocketId, r: Step, remote: Address, except: SocketId)
    requires Alive(s, id) && Link(s.sockets[id], r.tcb) && Wakes(s.sockets[id], r.tcb, r.dirty)
    requires except == id || Rises(s.sockets[id], r.tcb)
    ensures var s' := Apply(s, id, r, remote);
      Evolves(s, s', except) && StaysAwake(s, s') && DirtyGrows(s, s') && s'.sockets.Keys <= s.sockets.Keys
  {
    ApplyShape(s, id, r, remote);
    var s' := Apply(s, id, r, remote);
    forall j | j in s'.sockets
      ensures j in s.sockets && Link(s.sockets[j], s'.sockets[j]) && Wakes(s.sockets[j], s'.sockets[j], j in s'.dirty)
      ensures j != except ==> Rises(s.sockets[j], s'.sockets[j])
    {
    }
  }

  lemma ProcessOneEvolves(s: Stack, id: SocketId)
    ensures var s' := ProcessOne(s, id);
      && Evolves(s, s', 0) && StaysAwake(s, s') && DirtyGrows(s, s') && s'.sockets.Keys <= s.sockets.Keys
      && (id in s'.sockets && id != 0 && (HasWork(s'.sockets[id]) || HasClosingWork(s'.sockets[id])) ==> id in s'.dirty)
      && (forall j | j in s'.sockets :: s'.sockets[j].state == s.sockets[j].state)
  {
    if Alive(s, id) {
      ProcessKeeps(s.sockets[id]);
      ApplyEvolves(s, id, ProcessBlock(s.sockets[id]), s.sockets[id].dst, 0);
      ApplyShape(s, id, ProcessBlock(s.sockets[id]), s.sockets[id].dst);
    }
  }

  lemma {:induction false} ProcessAllEvolves(s: Stack, ids: seq<SocketId>)
    requires Coherent(s)
    ensures var s' := ProcessAll(s, ids); Coherent(s') && Evolves(s, s', 0) && DirtyGrows(s, s')
    decreases |ids|
  {
    if ids != [] {
      var m := ProcessOne(s, ids[0]);
      ProcessOneEvolves(s, ids[0]);
      EvolvesKeepsCoherent(s, m, 0);
      ProcessAllEvolves(m, ids[1..]);
      EvolvesTransitive(s, m, ProcessAll(m, ids[1..]));
    }
  }

  /** Working off a batch re-queues whatever still has work. */
  lemma {:induction false} ProcessAllLeavesAwake(s: Stack, ids: seq<SocketId>)
    requires Coherent(s) && Awake(s, ids)
    ensures Awake(ProcessAll(s, ids), [])
    decreases |ids|
  {
    if ids != [] {
      var m := ProcessOne(s, ids[0]);
      ProcessOneEvolves(s, ids[0]);
      EvolvesKeepsCoherent(s, m, 0);
      StaysAwakeKeepsAwake(s, m, ids);
      assert Awake(m, ids[1..]);
      ProcessAllLeavesAwake(m, ids[1..]);
    }
  }

  /** A timeout changes no control block. */
  lemma {:induction false} RetransmitAllKeepsSockets(s: Stack, ids: seq<SocketId>)
    ensures var s' := RetransmitAll(s, ids); s'.sockets == s.sockets && s'.nextId == s.nextId && s'.dirty == s.dirty
    decreases |ids|
  {
    if ids != [] {
      if Alive(s, ids[0]) {
        var t := s.sockets[ids[0]];
        RetransmitKeeps(t);
        assert s.sockets[ids[0] := t] == s.sockets;
        RetransmitAllKeepsSockets(Apply(s, ids[0], Retransmit(t), t.dst), ids[1..]);
      } else {
        RetransmitAllKeepsSockets(s, ids[1..]);
      }
    }
  }

  lemma IncomingEvolves(s: Stack, src: Address, dst: Address, p: Segment, iss: u32)
    requires Coherent(s)
    ensures var s' := Incoming(s, src, dst, p, iss); Evolves(s, s', 0) && StaysAwake(s, s') && DirtyGrows(s, s')
  {
    var id := FindConnection(s, src, dst);
    if id != 0 && !s.sockets[id].state.Closed? && !s.sockets[id].state.Listen? {
      ReceiveKeeps(s.sockets[id], p);
      ApplyEvolves(s, id, Receive(s.sockets[id], p), src, 0);
    } else {
      UnroutedEvolves(s, src, dst, p, iss);
    }
  }

  lemma UnroutedEvolves(s: Stack, src: Address, dst: Address, p: Segment, iss: u32)
    requires Coherent(s)
    ensures var s' := PassiveOpen(s, src, dst, p, iss); Evolves(s, s', 0) && StaysAwake(s, s') && DirtyGrows(s, s')
    ensures var s' := Refuse(s, src, dst, p); Evolves(s, s', 0) && StaysAwake(s, s') && DirtyGrows(s, s')
  {
  }

  /** `connect` is called on a socket that holds no data yet. */
  ghost predicate Unwritten(s: Stack, id: SocketId) {
    Alive(s, id) ==> s.sockets[id].sendBuf == []
  }

  /** `send` is called once the handshake is over. */
  ghost predicate Opened(s: Stack, id: SocketId) {
    Alive(s, id) ==> !s.sockets[id].state.SynSent? && !s.sockets[id].state.SynReceived?
  }

  lemma ConnectEvolves(s: Stack, id: SocketId, remote: Address, localIp: u32, iss: u32)
    requires Coherent(s)
    ensures var s' := Connect(s, id, remote, localIp, iss);
      Evolves(s, s', Lowered(s, ActConnect(id, remote, iss))) && DirtyGrows(s, s')
  {
  }

  lemma ConnectStaysAwake(s: Stack, id: SocketId, remote: Address, localIp: u32, iss: u32)
    requires Coherent(s) && Unwritten(s, id)
    ensures StaysAwake(s, Connect(s, id, remote, localIp, iss))
  {
  }

  lemma BindEvolves(s: Stack, addr: Address, localIp: u32, iss: u32)
    requires Coherent(s)
    ensures var s' := Bind(s, addr, localIp, iss); Evolves(s, s', 0) && StaysAwake(s, s') && DirtyGrows(s, s')
  {
  }

  lemma SendEvolves(s: Stack, id: SocketId, data: seq<u8>)
    requires Coherent(s)
    ensures var s' := SendOn(s, id, data); Evolves(s, s', 0) && DirtyGrows(s, s') && (Opened(s, id) ==> StaysAwake(s, s'))
  {
  }

  lemma CloseEvolves(s: Stack, id: SocketId)
    requires Coherent(s)
    ensures var s' := CloseOf(s, id); Evolves(s, s', Lowered(s, ActClose(id))) && StaysAwake(s, s') && DirtyGrows(s, s')
  {
    if Alive(s, id) {
      CloseKeeps(s.sockets[id]);
      ApplyEvolves(s, id, CloseConnection(s.sockets[id]), s.sockets[id].dst, Lowered(s, ActClose(id)));
    }
  }

  lemma ListenEvolves(s: Stack, id: SocketId)
    ensures var s' := ListenOn(s, id); Evolves(s, s', Lowered(s, ActListen(id))) && StaysAwake(s, s') && DirtyGrows(s, s')
  {
  }

  lemma AcceptEvolves(s: Stack, id: SocketId)
    ensures var s' := AcceptFrom(s, id); Evolves(s, s', 0) && StaysAwake(s, s') && DirtyGrows(s, s')
  {
  }

  lemma RecvEvolves(s: Stack, id: SocketId, limit: nat)
    ensures var s' := RecvOn(s, id, limit); Evolves(s, s', 0) && StaysAwake(s, s') && DirtyGrows(s, s')
  {
  }

  // ------------------------------------------------------- runs

  /**
   * How applications use their sockets: data is sent only once the handshake is over, and
   * connect is called on a socket that holds none.
   */
  ghost predicate Disciplined(s: Stack, act: Action) {
    match act
    case ActConnect(id, _, _) => Unwritten(s, id)
    case ActSend(id, _) => Opened(s, id)
    case _ => true
  }

  /**
   * The socket that this user call takes to a lower state, 0 for every other action: `connect`
   * on one that has been used, `listen` on a CLOSED one, `close` where `CloseRises` fails.
   */
  function Lowered(s: Stack, act: Action): SocketId {
    match act
    case ActConnect(id, _, _) =>
      if Alive(s, id) && Rank(s.sockets[id].state) > 1 then id else 0
    case ActListen(id) => if Alive(s, id) && s.sockets[id].state.Closed? then id else 0
    case ActClose(id) => if Alive(s, id) && !CloseRises(s.sockets[id].state) then id else 0
    case _ => 0
  }

  ghost predicate Good(s: Stack) {
    Coherent(s) && Awake(s, [])
  }

  /** Every action of every kind, on any socket in any state, and any segment. */
  lemma NextEvolves(s: Stack, localIp: u32, act: Action)
    requires Coherent(s)
    ensures var s' := Next(s, localIp, act); Evolves(s, s', Lowered(s, act)) && Coherent(s')
  {
    if act.ActProcessDirty? {
      ProcessAllEvolves(s.(dirty := []), s.dirty);
    } else {
      QuietNextEvolves(s, localIp, act);
    }
    EvolvesKeepsCoherent(s, Next(s, localIp, act), Lowered(s, act));
  }

  lemma NextKeepsGood(s: Stack, localIp: u32, act: Action)
    requires Good(s) && Disciplined(s, act)
    ensures Good(Next(s, localIp, act))
  {
    NextEvolves(s, localIp, act);
    if act.ActProcessDirty? {
      ProcessAllLeavesAwake(s.(dirty := []), s.dirty);
    } else {
      QuietNextEvolves(s, localIp, act);
      StaysAwakeKeepsAwake(s, Next(s, localIp, act), []);
    }
  }

  lemma QuietNextEvolves(s: Stack, localIp: u32, act: Action)
    requires Coherent(s) && !act.ActProcessDirty?
    ensures var s' := Next(s, localIp, act);
      Evolves(s, s', Lowered(s, act)) && DirtyGrows(s, s') && (Disciplined(s, act) ==> StaysAwake(s, s'))
  {
    match act
    case ActBind(addr, iss) => BindEvolves(s, addr, localIp, iss);
    case ActListen(id) => ListenEvolves(s, id);
    case ActConnect(id, remote, iss) =>
      ConnectEvolves(s, id, remote, localIp, iss);
      if Unwritten(s, id) { ConnectStaysAwake(s, id, remote, localIp, iss); }
    case ActAccept(id) => AcceptEvolves(s, id);
    case ActSend(id, data) => SendEvolves(s, id, data);
    case ActRecv(id, limit) => RecvEvolves(s, id, limit);
    case ActClose(id) => CloseEvolves(s, id);
    case ActArrive(src, dst, p, iss) => IncomingEvolves(s, src, dst, p, iss);
    case ActExpire(expired) => RetransmitAllKeepsSockets(s, expired);
  }

  ghost predicate DisciplinedRun(s: Stack, localIp: u32, acts: seq<Action>)
    decreases |acts|
  {
    acts != [] ==> Disciplined(s, acts[0]) && DisciplinedRun(Next(s, localIp, acts[0]), localIp, acts[1..])
  }

  lemma {:induction false} RunIsGood(s: Stack, localIp: u32, acts: seq<Action>)
    requires Good(s) && DisciplinedRun(s, localIp, acts)
    ensures Good(Run(s, localIp, acts))
    decreases |acts|
  {
    if acts != [] {
      NextKeepsGood(s, localIp, acts[0]);
      RunIsGood(Next(s, localIp, acts[0]), localIp, acts[1..]);
    }
  }

  lemma {:induction false} RunIsCoherent(s: Stack, localIp: u32, acts: seq<Action>)
    requires Coherent(s)
    ensures Coherent(Run(s, localIp, acts))
    decreases |acts|
  {
    if acts != [] {
      NextEvolves(s, localIp, acts[0]);
      RunIsCoherent(Next(s, localIp, acts[0]), localIp, acts[1..]);
    }
  }

  // ------------------------------------------------------- no lost wake-up

  /**
   * In every state between the steps of every run, an ESTABLISHED socket with unsent bytes
   * and an open window is in the dirty queue, whatever segments arrive and whichever sockets
   * are closed in whatever state.
   */
  lemma NoLostWakeup(localIp: u32, acts: seq<Action>, id: SocketId)
    requires DisciplinedRun(EMPTY, localIp, acts)
    ensures var s := Run(EMPTY, localIp, acts);
      id in s.sockets && s.sockets[id].state.Established? && WantsToSend(s.sockets[id]) ==> id in s.dirty
  {
    RunIsGood(EMPTY, localIp, acts);
    var s := Run(EMPTY, localIp, acts);
    assert id in s.sockets && HasWork(s.sockets[id]) ==> id in s.dirty;
  }

  /** A stack whose only socket is connecting, with `byte` in its send buffer. */
  ghost predicate Connecting(s: Stack, local: Address, remote: Address, iss: u32, buf: seq<u8>) {
    && Alive(s, 1) && s.conns == map[(remote, local) := 1]
    && var t := s.sockets[1];
    && t.state.SynSent? && t.sendBuf == buf && t.sndNxt == Wrap(iss + 1)
    && t.src == local && t.dst == remote
  }

  lemma FirstConnect(localIp: u32, remote: Address, iss: u32)
    ensures var s := Connect(EMPTY, 0, remote, localIp, iss);
      Connecting(s, Address(localIp, Ports.FIRST), remote, iss, []) && s.dirty == [1]
  {
    assert BoundPorts(EMPTY) == {};
    assert Ports.Probe({}, Ports.FIRST, Ports.PROBES).port == Ports.FIRST;
  }

  lemma ProcessConnecting(s: Stack, local: Address, remote: Address, iss: u32, buf: seq<u8>)
    requires Connecting(s, local, remote, iss, buf)
    ensures var s' := ProcessOne(s, 1); Connecting(s', local, remote, iss, buf) && s'.dirty == s.dirty
  {
  }

  lemma EstablishConnecting(s: Stack, local: Address, remote: Address, iss: u32, buf: seq<u8>, p: Segment)
    requires Connecting(s, local, remote, iss, buf) && s.dirty == [] && buf != []
    requires p.syn && p.ack && !p.rst && p.ackNum == Wrap(iss + 1) && p.window > 0
    ensures var s' := Incoming(s, remote, local, p, 0);
      1 in s'.sockets && HasWork(s'.sockets[1]) && s'.dirty == []
  {
    assert FindConnection(s, remote, local) == 1;
  }

  /**
   * The discipline is needed. Data sent during the handshake gets stuck: a connecting socket
   * is written to, the daemon takes it off the queue while it is in SYN_SENT, and the SYN-ACK
   * leaves it ESTABLISHED with an unsent byte, an open window and an empty dirty queue.
   */
  lemma EarlySendLosesWakeup(localIp: u32, remote: Address, iss: u32, p: Segment, byte: u8)
    requires p.syn && p.ack && !p.rst && p.ackNum == Wrap(iss + 1) && p.window > 0
    ensures var s := ProcessDirty(SendOn(Connect(EMPTY, 0, remote, localIp, iss), 1, [byte]));
      var s' := Incoming(s, remote, Address(localIp, Ports.FIRST), p, 0);
      1 in s'.sockets && HasWork(s'.sockets[1]) && s'.dirty == []
  {
    var local := Address(localIp, Ports.FIRST);
    FirstConnect(localIp, remote, iss);
    var s1 := Connect(EMPTY, 0, remote, localIp, iss);
    var s2 := SendOn(s1, 1, [byte]);
    assert Connecting(s2, local, remote, iss, [byte]) && s2.dirty == [1, 1];
    var s3 := s2.(dirty := []);
    ProcessConnecting(s3, local, remote, iss, [byte]);
    ProcessConnecting(ProcessOne(s3, 1), local, remote, iss, [byte]);
    ProcessTwice(s3);
    EstablishConnecting(ProcessDirty(s2), local, remote, iss, [byte], p);
  }

  lemma ProcessTwice(s: Stack)
    ensures ProcessAll(s, [1, 1]) == ProcessOne(ProcessOne(s, 1), 1)
  {
    assert [1, 1][1..] == [1] && [1][1..] == [];
  }

  // ------------------------------------------------------- the same in CLOSE_WAIT

  ghost predicate ClosingAwake(s: Stack, batch: seq<SocketId>) {
    forall id | id in s.sockets && HasClosingWork(s.sockets[id]) :: id in s.dirty || id in batch
  }

  /** The FIN that arrives leaves work behind, on a socket that is not queued. */
  ghost predicate Strands(s: Stack, act: Action) {
    act.ActArrive? &&
    var id := FindConnection(s, act.src, act.dst);
    && id != 0 && id !in s.dirty && s.sockets[id].state.Established? && act.p.fin
    && WantsToSend(Receive(s.sockets[id], act.p).tcb)
  }

  lemma {:induction false} ProcessAllLeavesClosingAwake(s: Stack, ids: seq<SocketId>)
    requires Coherent(s) && ClosingAwake(s, ids)
    ensures ClosingAwake(ProcessAll(s, ids), [])
    decreases |ids|
  {
    if ids != [] {
      var m := ProcessOne(s, ids[0]);
      ProcessOneEvolves(s, ids[0]);
      EvolvesKeepsCoherent(s, m, 0);
      assert ClosingAwake(m, ids[1..]);
      ProcessAllLeavesClosingAwake(m, ids[1..]);
    }
  }

  /** Only an arriving segment takes a socket into CLOSE_WAIT. */
  lemma NoNewCloseWait(s: Stack, localIp: u32, act: Action, id: SocketId)
    requires Coherent(s) && !act.ActArrive? && !act.ActProcessDirty?
    requires id in s.sockets && id in Next(s, localIp, act).sockets && Next(s, localIp, act).sockets[id].state.CloseWait?
    ensures s.sockets[id].state.CloseWait?
  {
    match act
    case ActExpire(expired) => RetransmitAllKeepsSockets(s, expired);
    case ActClose(j) =>
      if Alive(s, j) { ApplyShape(s, j, CloseConnection(s.sockets[j]), s.sockets[j].dst); }
    case ActConnect(j, remote, iss) => ConnectStates(s, j, remote, localIp, iss, id);
    case ActBind(addr, iss) => BindStates(s, addr, localIp, iss, id);
    case _ =>
  }

  lemma ConnectStates(s: Stack, j: SocketId, remote: Address, localIp: u32, iss: u32, id: SocketId)
    requires Coherent(s) && id in s.sockets
    ensures var s' := Connect(s, j, remote, localIp, iss);
      id in s'.sockets && (s'.sockets[id].state == s.sockets[id].state || s'.sockets[id].state.SynSent?)
  {
  }

  lemma BindStates(s: Stack, addr: Address, localIp: u32, iss: u32, id: SocketId)
    requires Coherent(s) && id in s.sockets
    ensures id in Bind(s, addr, localIp, iss).sockets && Bind(s, addr, localIp, iss).sockets[id] == s.sockets[id]
  {
  }

  /** A FIN in ESTABLISHED changes this one socket and the output. */
  lemma FinShape(s: Stack, src: Address, dst: Address, p: Segment, iss: u32)
    requires var id := FindConnection(s, src, dst); id != 0 && s.sockets[id].state.Established? && p.fin
    ensures var id, s' := FindConnection(s, src, dst), Incoming(s, src, dst, p, iss);
      s'.sockets == s.sockets[id := Receive(s.sockets[id], p).tcb] && s'.dirty == s.dirty
  {
  }

  lemma ArrivalClosingAwake(s: Stack, src: Address, dst: Address, p: Segment, iss: u32)
    requires Coherent(s) && ClosingAwake(s, [])
    ensures ClosingAwake(Incoming(s, src, dst, p, iss), []) <==> !Strands(s, ActArrive(src, dst, p, iss))
  {
    var id, s' := FindConnection(s, src, dst), Incoming(s, src, dst, p, iss);
    if id != 0 && s.sockets[id].state.Established? && p.fin {
      FinShape(s, src, dst, p, iss);
      OnlyFinEntersCloseWait(s.sockets[id], p);
    } else if id != 0 && !s.sockets[id].state.Closed? && !s.sockets[id].state.Listen? {
      OnlyFinEntersCloseWait(s.sockets[id], p);
      ApplyShape(s, id, Receive(s.sockets[id], p), src);
    } else {
      UnroutedEvolves(s, src, dst, p, iss);
      UnroutedStates(s, src, dst, p, iss);
    }
  }

  lemma UnroutedStates(s: Stack, src: Address, dst: Address, p: Segment, iss: u32)
    requires Coherent(s)
    ensures forall id | id in s.sockets ::
      id in PassiveOpen(s, src, dst, p, iss).sockets && PassiveOpen(s, src, dst, p, iss).sockets[id] == s.sockets[id]
    ensures Refuse(s, src, dst, p).sockets == s.sockets
  {
  }

  /**
   * In CLOSE_WAIT there is one way to lose a wake-up, and only one: a FIN whose acknowledgement
   * and window leave something to send, on a socket that is not queued at that moment.
   * `Sender.FinLeavesWorkExactlyWhen` says which FINs these are.
   */
  lemma ClosingWakeupLostExactlyWhen(s: Stack, localIp: u32, act: Action)
    requires Good(s) && Disciplined(s, act) && ClosingAwake(s, [])
    ensures ClosingAwake(Next(s, localIp, act), []) <==> !Strands(s, act)
  {
    if act.ActArrive? {
      ArrivalClosingAwake(s, act.src, act.dst, act.p, act.iss);
    } else if act.ActProcessDirty? {
      ProcessAllLeavesClosingAwake(s.(dirty := []), s.dirty);
    } else {
      var s' := Next(s, localIp, act);
      QuietNextEvolves(s, localIp, act);
      forall id | id in s'.sockets && HasClosingWork(s'.sockets[id]) ensures id in s'.dirty {
        if id in s.sockets { NoNewCloseWait(s, localIp, act, id); }
      }
    }
  }

  ghost predicate NoneStrands(s: Stack, localIp: u32, acts: seq<Action>)
    decreases |acts|
  {
    acts != [] ==> !Strands(s, acts[0]) && NoneStrands(Next(s, localIp, acts[0]), localIp, acts[1..])
  }

  /** Over runs: as long as no FIN strands a socket, one in CLOSE_WAIT with work is queued too. */
  lemma {:induction false} NoLostClosingWakeup(s: Stack, localIp: u32, acts: seq<Action>)
    requires Good(s) && ClosingAwake(s, [])
    requires DisciplinedRun(s, localIp, acts) && NoneStrands(s, localIp, acts)
    ensures Good(Run(s, localIp, acts)) && ClosingAwake(Run(s, localIp, acts), [])
    decreases |acts|
  {
    if acts != [] {
      NextKeepsGood(s, localIp, acts[0]);
      ClosingWakeupLostExactlyWhen(s, localIp, acts[0]);
      NoLostClosingWakeup(Next(s, localIp, acts[0]), localIp, acts[1..]);
    }
  }

  // ------------------------------------------------------- states only rise

  /** No user call of the run takes socket `id` to a lower state. */
  ghost predicate Spares(s: Stack, localIp: u32, acts: seq<Action>, id: SocketId)
    decreases |acts|
  {
    acts != [] ==> Lowered(s, acts[0]) != id && Spares(Next(s, localIp, acts[0]), localIp, acts[1..], id)
  }

  /**
   * From any reachable state on: a connection that is still in the table has kept its state
   * or moved to one of strictly higher rank, so no state is ever entered twice; and no socket
   * is ever in TIME_WAIT.
   */
  lemma {:induction false} StatesOnlyRise(s: Stack, localIp: u32, acts: seq<Action>, id: SocketId)
    requires Coherent(s) && Spares(s, localIp, acts, id)
    ensures var s' := Run(s, localIp, acts);
      id in s.sockets && id in s'.sockets ==>
        Rises(s.sockets[id], s'.sockets[id]) && !s'.sockets[id].state.TimeWait?
    decreases |acts|
  {
    RunIsCoherent(s, localIp, acts);
    if acts != [] {
      var m := Next(s, localIp, acts[0]);
      NextEvolves(s, localIp, acts[0]);
      StatesOnlyRise(m, localIp, acts[1..], id);
      if id in s.sockets && id !in m.sockets {
        StaysDestroyed(m, localIp, acts[1..], id);
      }
    }
  }

  /** The calls that `Spares` excludes are exactly those after which a state has not risen. */
  lemma FallsExactlyWhenLowered(s: Stack, localIp: u32, act: Action, id: SocketId)
    requires Coherent(s) && id in s.sockets && id in Next(s, localIp, act).sockets
    ensures Rises(s.sockets[id], Next(s, localIp, act).sockets[id]) <==> Lowered(s, act) != id
  {
    if Lowered(s, act) != id {
      NextEvolves(s, localIp, act);
    } else {
      match act
      case ActConnect(_, remote, iss) => ConnectLowers(s, id, remote, localIp, iss);
      case ActListen(_) =>
      case ActClose(_) =>
        CloseKeeps(s.sockets[id]);
        ApplyShape(s, id, CloseConnection(s.sockets[id]), s.sockets[id].dst);
    }
  }

  lemma ConnectLowers(s: Stack, id: SocketId, remote: Address, localIp: u32, iss: u32)
    requires Alive(s, id)
    ensures Connect(s, id, remote, localIp, iss).sockets[id].state.SynSent?
  {
  }

  lemma {:induction false} StaysDestroyed(s: Stack, localIp: u32, acts: seq<Action>, id: SocketId)
    requires Coherent(s) && id < s.nextId && id !in s.sockets
    ensures id !in Run(s, localIp, acts).sockets
    decreases |acts|
  {
    if acts != [] {
      NextEvolves(s, localIp, acts[0]);
      StaysDestroyed(Next(s, localIp, acts[0]), localIp, acts[1..], id);
    }
  }

  // ------------------------------------------------------- accept queues

  /** Between `s` and `s'`, `id` was appended to some socket's accept queue. */
  ghost predicate Pushed(s: Stack, s': Stack, id: SocketId) {
    exists l :: l in s.sockets && l in s'.sockets && s'.sockets[l].acceptQueue == s.sockets[l].acceptQueue + [id]
  }

  ghost predicate QueuesKept(s: Stack, s': Stack) {
    forall l | l in s.sockets && l in s'.sockets ::
      s'.sockets[l].acceptQueue == s.sockets[l].acceptQueue
  }

  lemma SettleQueues(s: Stack, id: SocketId, r: Step, remote: Address)
    requires Alive(s, id)
    ensures var s' := Settle(s, id, r, remote);
      && s'.sockets.Keys <= s.sockets.Keys
      && (!r.effect.EnqueueAccept? ==> QueuesKept(s, s'))
      && (forall l | l in s'.sockets ::
            s'.sockets[l] == s.sockets[l]
            || s'.sockets[l] == s.sockets[l].(acceptQueue := s.sockets[l].acceptQueue + [id]))
      && (r.effect.EnqueueAccept? ==> id in s'.sockets)
  {
  }

  lemma ApplyQueues(s: Stack, id: SocketId, r: Step, remote: Address)
    requires Alive(s, id) && r.tcb.acceptQueue == s.sockets[id].acceptQueue
    ensures var s' := Apply(s, id, r, remote);
      && s'.sockets.Keys <= s.sockets.Keys
      && (!r.effect.EnqueueAccept? ==> QueuesKept(s, s'))
      && (forall l | l in s'.sockets ::
            s'.sockets[l].acceptQueue == s.sockets[l].acceptQueue
            || s'.sockets[l].acceptQueue == s.sockets[l].acceptQueue + [id])
      && (r.effect.EnqueueAccept? ==> id in s'.sockets && s'.sockets[id].state == r.tcb.state)
  {
    var m := Store(s, id, r);
    SettleQueues(m, id, r, remote);
    assert QueuesKept(s, m) && m.sockets.Keys == s.sockets.Keys;
  }

  lemma {:induction false} ProcessAllKeepsQueues(s: Stack, ids: seq<SocketId>)
    ensures QueuesKept(s, ProcessAll(s, ids)) && ProcessAll(s, ids).sockets.Keys <= s.sockets.Keys
    decreases |ids|
  {
    if ids != [] {
      var m := ProcessOne(s, ids[0]);
      if Alive(s, ids[0]) {
        SendingSteady(s.sockets[ids[0]]);
        ApplyQueues(s, ids[0], ProcessBlock(s.sockets[ids[0]]), s.sockets[ids[0]].dst);
      }
      ProcessAllKeepsQueues(m, ids[1..]);
    }
  }

  lemma BindKeepsQueues(s: Stack, addr: Address, localIp: u32, iss: u32)
    requires Coherent(s)
    ensures QueuesKept(s, Bind(s, addr, localIp, iss))
  {
  }

  lemma ConnectKeepsQueues(s: Stack, id: SocketId, remote: Address, localIp: u32, iss: u32)
    requires Coherent(s)
    ensures QueuesKept(s, Connect(s, id, remote, localIp, iss))
  {
  }

  lemma DataCallsKeepQueues(s: Stack, id: SocketId, data: seq<u8>, limit: nat)
    ensures QueuesKept(s, ListenOn(s, id)) && QueuesKept(s, SendOn(s, id, data)) && QueuesKept(s, RecvOn(s, id, limit))
  {
  }

  lemma CloseKeepsQueues(s: Stack, id: SocketId)
    ensures QueuesKept(s, CloseOf(s, id))
  {
    if Alive(s, id) {
      SendingSteady(s.sockets[id]);
      ApplyQueues(s, id, CloseConnection(s.sockets[id]), s.sockets[id].dst);
    }
  }

  lemma AppendOne(q: seq<SocketId>, i: SocketId, j: SocketId)
    ensures q + [i] != q && (q + [i] == q + [j] ==> i == j)
  {
    assert (q + [i])[|q|] == i && (q + [j])[|q|] == j;
  }

  lemma ApplyPushes(s: Stack, j: SocketId, r: Step, remote: Address, id: SocketId)
    requires Alive(s, j) && Steady(s.sockets[j], r) && Pushed(s, Apply(s, j, r, remote), id)
    ensures var s' := Apply(s, j, r, remote);
      && id == j && s.sockets[id].state.SynReceived?
      && id in s'.sockets && s'.sockets[id].state.Established?
  {
    ApplyQueues(s, j, r, remote);
    var s' := Apply(s, j, r, remote);
    var l :| l in s.sockets && l in s'.sockets && s'.sockets[l].acceptQueue == s.sockets[l].acceptQueue + [id];
    AppendOne(s.sockets[l].acceptQueue, id, j);
  }

  lemma IncomingPushes(s: Stack, src: Address, dst: Address, p: Segment, iss: u32, id: SocketId)
    requires Coherent(s) && Pushed(s, Incoming(s, src, dst, p, iss), id)
    ensures var s' := Incoming(s, src, dst, p, iss);
      && id in s.sockets && s.sockets[id].state.SynReceived?
      && id in s'.sockets && s'.sockets[id].state.Established?
  {
    var j := FindConnection(s, src, dst);
    if j != 0 && !s.sockets[j].state.Closed? && !s.sockets[j].state.Listen? {
      ReceiveSteady(s.sockets[j], p);
      ApplyPushes(s, j, Receive(s.sockets[j], p), src, id);
    } else {
      UnroutedNeverPushes(s, src, dst, p, iss, id);
    }
  }

  lemma UnroutedNeverPushes(s: Stack, src: Address, dst: Address, p: Segment, iss: u32, id: SocketId)
    requires Coherent(s)
    requires var j := FindConnection(s, src, dst); j == 0 || s.sockets[j].state.Closed? || s.sockets[j].state.Listen?
    ensures !Pushed(s, Incoming(s, src, dst, p, iss), id)
  {
    assert QueuesKept(s, Incoming(s, src, dst, p, iss));
    NoPush(s, Incoming(s, src, dst, p, iss), id);
  }

  lemma NoPush(s: Stack, s': Stack, id: SocketId)
    requires QueuesKept(s, s')
    ensures !Pushed(s, s', id)
  {
    forall l | l in s.sockets && l in s'.sockets
      ensures s'.sockets[l].acceptQueue != s.sockets[l].acceptQueue + [id]
    {
      AppendOne(s.sockets[l].acceptQueue, id, id);
    }
  }

  /** A child enters an accept queue only in the step in which it becomes ESTABLISHED. */
  lemma PushedOnlyWhenEstablished(s: Stack, localIp: u32, act: Action, id: SocketId)
    requires Coherent(s) && Pushed(s, Next(s, localIp, act), id)
    ensures var s' := Next(s, localIp, act);
      && act.ActArrive?
      && id in s.sockets && s.sockets[id].state.SynReceived?
      && id in s'.sockets && s'.sockets[id].state.Established?
  {
    match act
    case ActArrive(src, dst, p, iss) => IncomingPushes(s, src, dst, p, iss, id);
    case ActAccept(j) => AcceptNeverPushes(s, j, id);
    case _ =>
      OthersKeepQueues(s, localIp, act);
      NoPush(s, Next(s, localIp, act), id);
  }

  lemma AcceptNeverPushes(s: Stack, j: SocketId, id: SocketId)
    ensures !Pushed(s, AcceptFrom(s, j), id)
  {
    forall l | l in s.sockets && l in AcceptFrom(s, j).sockets
      ensures |AcceptFrom(s, j).sockets[l].acceptQueue| <= |s.sockets[l].acceptQueue|
    {
    }
  }

  lemma OthersKeepQueues(s: Stack, localIp: u32, act: Action)
    requires Coherent(s) && !act.ActArrive? && !act.ActAccept?
    ensures QueuesKept(s, Next(s, localIp, act))
  {
    match act
    case ActProcessDirty => ProcessAllKeepsQueues(s.(dirty := []), s.dirty);
    case ActExpire(expired) => RetransmitAllKeepsSockets(s, expired);
    case ActClose(j) => CloseKeepsQueues(s, j);
    case ActBind(addr, iss) => BindKeepsQueues(s, addr, localIp, iss);
    case ActConnect(id, remote, iss) => ConnectKeepsQueues(s, id, remote, localIp, iss);
    case ActSend(id, data) => DataCallsKeepQueues(s, id, data, 0);
    case ActRecv(id, limit) => DataCallsKeepQueues(s, id, [], limit);
    case ActListen(id) => DataCallsKeepQueues(s, id, [], 0);
  }

  /** The run does not open socket `id` again with `connect` or `listen`. */
  ghost predicate Unopened(acts: seq<Action>, id: SocketId) {
    forall k | 0 <= k < |acts| :: acts[k].ActConnect? || acts[k].ActListen? ==> acts[k].id != id
  }

  /** Past the handshake, and not listening. */
  ghost predicate Begun(s: Stack, id: SocketId) {
    id in s.sockets ==> Rank(s.sockets[id].state) >= 3
  }

  /** Whatever arrives and whatever is closed, only opening a socket again starts a handshake. */
  lemma NextStaysBegun(s: Stack, localIp: u32, act: Action, id: SocketId)
    requires Coherent(s) && id < s.nextId && Begun(s, id) && Unopened([act], id)
    ensures Begun(Next(s, localIp, act), id)
  {
    NextEvolves(s, localIp, act);
    assert [act][0] == act;
    if id in s.sockets && Lowered(s, act) == id {
      ApplyShape(s, id, CloseConnection(s.sockets[id]), s.sockets[id].dst);
    }
  }

  lemma {:induction false} RunStaysBegun(s: Stack, localIp: u32, acts: seq<Action>, id: SocketId)
    requires Coherent(s) && id < s.nextId && Begun(s, id) && Unopened(acts, id)
    ensures Begun(Run(s, localIp, acts), id)
    decreases |acts|
  {
    if acts != [] {
      assert [acts[0]][0] == acts[0];
      NextStaysBegun(s, localIp, acts[0], id);
      NextEvolves(s, localIp, acts[0]);
      RunStaysBegun(Next(s, localIp, acts[0]), localIp, acts[1..], id);
    }
  }

  /** Once pushed, never pushed again, in whatever the stack does next. */
  lemma AcceptedAtMostOnce(s: Stack, localIp: u32, act: Action, acts: seq<Action>, later: Action, id: SocketId)
    requires Coherent(s) && Unopened(acts, id) && Pushed(s, Next(s, localIp, act), id)
    ensures var u := Run(Next(s, localIp, act), localIp, acts); !Pushed(u, Next(u, localIp, later), id)
  {
    var m := Next(s, localIp, act);
    PushedOnlyWhenEstablished(s, localIp, act, id);
    NextEvolves(s, localIp, act);
    RunStaysBegun(m, localIp, acts, id);
    RunIsCoherent(m, localIp, acts);
    var u := Run(m, localIp, acts);
    if Pushed(u, Next(u, localIp, later), id) {
      PushedOnlyWhenEstablished(u, localIp, later, id);
    }
  }
}

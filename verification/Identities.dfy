/**
 * Socket identifiers over any sequence of operations whatever: they are issued in strictly
 * increasing order, stored under themselves and never used again.
 */
module Identities {
  import opened Words
  import opened ControlBlock
  import opened StackModel
  import StackRuns

  /** Sockets of `s'` are sockets of `s` or were issued since. */
  ghost predicate IssuedSince(s: Stack, s': Stack) {
    && s.nextId <= s'.nextId
    && forall id | id in s'.sockets :: id in s.sockets || s.nextId <= id
  }

  lemma {:induction false} RunKeepsKeys(s: Stack, localIp: u32, acts: seq<Action>)
    requires StackRuns.Coherent(s)
    ensures var s' := Run(s, localIp, acts);
      IssuedSince(s, s') && forall id | id in s'.sockets :: id < s'.nextId && s'.sockets[id].id == id
    decreases |acts|
  {
    if acts != [] {
      StackRuns.NextEvolves(s, localIp, acts[0]);
      RunKeepsKeys(Next(s, localIp, acts[0]), localIp, acts[1..]);
    }
  }

  // ------------------------------------------------------- routes

  /** Every route, live or stale, leads to an identifier that has been issued. */
  ghost predicate RoutesIssued(s: Stack) {
    && (forall k | k in s.conns :: s.conns[k] < s.nextId)
    && (forall port | port in s.listeners :: s.listeners[port] < s.nextId)
  }

  lemma ApplyKeepsRoutes(s: Stack, id: SocketId, r: Step, remote: Address)
    requires RoutesIssued(s)
    ensures RoutesIssued(Apply(s, id, r, remote))
  {
    SettleKeepsRoutes(Store(s, id, r), id, r, remote);
  }

  lemma SettleKeepsRoutes(s: Stack, id: SocketId, r: Step, remote: Address)
    requires RoutesIssued(s)
    ensures RoutesIssued(Settle(s, id, r, remote))
  {
  }

  lemma {:induction false} DaemonKeepsRoutes(s: Stack, ids: seq<SocketId>)
    requires RoutesIssued(s)
    ensures RoutesIssued(ProcessAll(s, ids)) && RoutesIssued(RetransmitAll(s, ids))
    decreases |ids|
  {
    if ids != [] {
      DaemonKeepsRoutes(s, ids[1..]);
      if Alive(s, ids[0]) {
        var t := s.sockets[ids[0]];
        ApplyKeepsRoutes(s, ids[0], ProcessBlock(t), t.dst);
        ApplyKeepsRoutes(s, ids[0], Retransmit(t), t.dst);
        DaemonKeepsRoutes(ProcessOne(s, ids[0]), ids[1..]);
        DaemonKeepsRoutes(Apply(s, ids[0], Retransmit(t), t.dst), ids[1..]);
      }
    }
  }

  lemma IncomingKeepsRoutes(s: Stack, src: Address, dst: Address, p: Segment, iss: u32)
    requires RoutesIssued(s)
    ensures RoutesIssued(Incoming(s, src, dst, p, iss))
  {
    var id := FindConnection(s, src, dst);
    if id != 0 { ApplyKeepsRoutes(s, id, Receive(s.sockets[id], p), src); }
  }

  lemma CallsKeepRoutes(s: Stack, localIp: u32, act: Action)
    requires RoutesIssued(s) && !act.ActArrive? && !act.ActProcessDirty? && !act.ActExpire? && !act.ActClose?
    requires StackRuns.Coherent(s)
    ensures RoutesIssued(Next(s, localIp, act))
  {
  }

  /** In every reachable state; so a new socket is never reached over an old route. */
  lemma {:induction false} RunKeepsRoutes(s: Stack, localIp: u32, acts: seq<Action>)
    requires StackRuns.Coherent(s) && RoutesIssued(s)
    ensures RoutesIssued(Run(s, localIp, acts))
    decreases |acts|
  {
    if acts != [] {
      StackRuns.NextEvolves(s, localIp, acts[0]);
      match acts[0] {
        case ActArrive(src, dst, p, iss) => IncomingKeepsRoutes(s, src, dst, p, iss);
        case ActProcessDirty => DaemonKeepsRoutes(s.(dirty := []), s.dirty);
        case ActExpire(expired) => DaemonKeepsRoutes(s, expired);
        case ActClose(id) => if Alive(s, id) { ApplyKeepsRoutes(s, id, CloseConnection(s.sockets[id]), s.sockets[id].dst); }
        case _ => CallsKeepRoutes(s, localIp, acts[0]);
      }
      RunKeepsRoutes(Next(s, localIp, acts[0]), localIp, acts[1..]);
    }
  }

  /**
   * Over any run: an identifier that was issued and destroyed is found by neither table again,
   * even where stale routes to it remain.
   */
  lemma DestroyedIsNeverFound(s: Stack, localIp: u32, acts: seq<Action>, id: SocketId)
    requires StackRuns.Coherent(s) && 0 < id < s.nextId && id !in s.sockets
    ensures var s' := Run(s, localIp, acts);
      && id !in s'.sockets
      && (forall remote, local :: FindConnection(s', remote, local) != id)
      && (forall port :: FindListener(s', port) != id)
  {
    RunKeepsKeys(s, localIp, acts);
  }

  ghost predicate Stored(s: Stack, id: SocketId) {
    id in s.sockets && id < s.nextId && s.sockets[id].id == id
  }

  /** `find` in either table returns 0 or a live identifier stored under itself. */
  lemma FoundIsLive(localIp: u32, acts: seq<Action>, remote: Address, local: Address, port: u16)
    ensures var s := Run(EMPTY, localIp, acts);
      && (FindConnection(s, remote, local) != 0 ==> Stored(s, FindConnection(s, remote, local)))
      && (FindListener(s, port) != 0 ==> Stored(s, FindListener(s, port)))
  {
    RunKeepsKeys(EMPTY, localIp, acts);
  }
}

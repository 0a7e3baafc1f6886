/**
 * The accept queue of a listener over whole runs: the children that become ESTABLISHED are
 * handed out by `accept` once each, in the order in which they did.
 */
module Accepting {
  import opened Words
  import opened ControlBlock
  import opened StackModel
  import opened StackRuns
  import Lifecycle

  function QueueOf(s: Stack, l: SocketId): seq<SocketId> {
    if l in s.sockets then s.sockets[l].acceptQueue else []
  }

  /** The child that this action puts behind the queue of `l`: the one whose handshake it completes. */
  function PushedBy(s: Stack, act: Action, l: SocketId): seq<SocketId> {
    if act.ActArrive? then
      var id := FindConnection(s, act.src, act.dst);
      if && id != 0 && s.sockets[id].state.SynReceived?
         && !act.p.rst && act.p.ack && act.p.ackNum == s.sockets[id].sndNxt
         && FindListener(s, s.sockets[id].src.port) == l
      then [id] else []
    else []
  }

  /** The child that this action hands to the application: what `accept` on `l` returns. */
  function HandedBy(s: Stack, act: Action, l: SocketId): seq<SocketId> {
    if act.ActAccept? && act.id == l && AcceptedChild(s, l) != 0 then [AcceptedChild(s, l)] else []
  }

  /** No accept queue holds 0, so that `accept` returns 0 only when it hands out nothing. */
  ghost predicate QueuesHoldSockets(s: Stack) {
    forall l | l in s.sockets :: 0 !in s.sockets[l].acceptQueue
  }

  ghost predicate Balanced(s: Stack, s': Stack, act: Action, l: SocketId) {
    QueueOf(s, l) + PushedBy(s, act, l) == HandedBy(s, act, l) + QueueOf(s', l)
  }

  // ------------------------------------------------------- one action

  /** What a handler asks for completes the handshake, and only then. */
  lemma EnqueuesExactlyWhen(t: Tcb, p: Segment)
    ensures Receive(t, p).effect.EnqueueAccept? <==>
      t.state.SynReceived? && !p.rst && p.ack && p.ackNum == t.sndNxt
  {
    Lifecycle.ReceiveSteady(t, p);
  }

  /** A step of socket `id` appends it to the queue of the listener on its port, or leaves all queues. */
  lemma ApplyPushesTo(s: Stack, id: SocketId, r: Step, remote: Address, l: SocketId)
    requires Alive(s, id) && r.tcb.acceptQueue == s.sockets[id].acceptQueue && r.tcb.src == s.sockets[id].src
    requires l != 0 && l in s.sockets && l in Apply(s, id, r, remote).sockets
    ensures QueueOf(Apply(s, id, r, remote), l) ==
      QueueOf(s, l) + if r.effect.EnqueueAccept? && FindListener(s, r.tcb.src.port) == l then [id] else []
  {
    var m := Store(s, id, r);
    assert m.sockets.Keys == s.sockets.Keys && m.listeners == s.listeners && QueueOf(m, l) == QueueOf(s, l);
    assert FindListener(m, r.tcb.src.port) == FindListener(s, r.tcb.src.port);
    SettlePushesTo(m, id, r, remote, l);
  }

  lemma SettlePushesTo(s: Stack, id: SocketId, r: Step, remote: Address, l: SocketId)
    requires l in s.sockets && l in Settle(s, id, r, remote).sockets
    ensures QueueOf(Settle(s, id, r, remote), l) ==
      QueueOf(s, l) + if r.effect.EnqueueAccept? && l != 0 && FindListener(s, r.tcb.src.port) == l then [id] else []
  {
  }

  lemma ArrivalBalances(s: Stack, src: Address, dst: Address, p: Segment, iss: u32, l: SocketId)
    requires Coherent(s) && l in s.sockets && l in Incoming(s, src, dst, p, iss).sockets
    ensures Balanced(s, Incoming(s, src, dst, p, iss), ActArrive(src, dst, p, iss), l)
  {
    var id, s' := FindConnection(s, src, dst), Incoming(s, src, dst, p, iss);
    if id != 0 && !s.sockets[id].state.Closed? && !s.sockets[id].state.Listen? {
      Lifecycle.ReceiveSteady(s.sockets[id], p);
      EnqueuesExactlyWhen(s.sockets[id], p);
      ApplyPushesTo(s, id, Receive(s.sockets[id], p), src, l);
    } else {
      UnroutedStates(s, src, dst, p, iss);
      assert QueueOf(s, l) + [] == [] + QueueOf(s', l);
    }
  }

  lemma AcceptBalances(s: Stack, id: SocketId, l: SocketId)
    requires QueuesHoldSockets(s) && l in s.sockets
    ensures Balanced(s, AcceptFrom(s, id), ActAccept(id), l)
  {
    var q, q' := QueueOf(s, l), QueueOf(AcceptFrom(s, id), l);
    if id == l && Alive(s, l) && s.sockets[l].state.Listen? && q != [] {
      assert q == [q[0]] + q[1..];
      assert q[0] in q;
    } else {
      assert q + [] == [] + q';
    }
  }

  lemma StepBalances(s: Stack, localIp: u32, act: Action, l: SocketId)
    requires Coherent(s) && QueuesHoldSockets(s) && l in s.sockets && l in Next(s, localIp, act).sockets
    ensures Balanced(s, Next(s, localIp, act), act, l)
  {
    match act
    case ActArrive(src, dst, p, iss) => ArrivalBalances(s, src, dst, p, iss, l);
    case ActAccept(id) => AcceptBalances(s, id, l);
    case _ =>
      OthersKeepQueues(s, localIp, act);
      assert QueueOf(s, l) + [] == [] + QueueOf(Next(s, localIp, act), l);
  }

  /** Sockets made on the way start with an empty queue, so 0 never gets into one. */
  lemma NewQueuesEmpty(s: Stack, localIp: u32, act: Action, l: SocketId)
    requires Coherent(s) && l !in s.sockets && l in Next(s, localIp, act).sockets
    ensures Next(s, localIp, act).sockets[l].acceptQueue == []
  {
    match act
    case ActArrive(src, dst, p, iss) =>
      var id := FindConnection(s, src, dst);
      if id != 0 { ApplyShape(s, id, Receive(s.sockets[id], p), src); }
    case ActClose(id) => if Alive(s, id) { ApplyShape(s, id, CloseConnection(s.sockets[id]), s.sockets[id].dst); }
    case ActProcessDirty => ProcessAllKeepsQueues(s.(dirty := []), s.dirty);
    case ActExpire(expired) => RetransmitAllKeepsSockets(s, expired);
    case ActConnect(id, remote, iss) => ConnectQueueEmpty(s, id, remote, localIp, iss, l);
    case _ =>
  }

  lemma ConnectQueueEmpty(s: Stack, id: SocketId, remote: Address, localIp: u32, iss: u32, l: SocketId)
    requires Coherent(s) && l !in s.sockets && l in Connect(s, id, remote, localIp, iss).sockets
    ensures Connect(s, id, remote, localIp, iss).sockets[l].acceptQueue == []
  {
  }

  lemma StepKeepsSockets(s: Stack, localIp: u32, act: Action)
    requires Coherent(s) && QueuesHoldSockets(s)
    ensures QueuesHoldSockets(Next(s, localIp, act))
  {
    var s' := Next(s, localIp, act);
    forall l | l in s'.sockets ensures 0 !in s'.sockets[l].acceptQueue {
      if l in s.sockets {
        StepBalances(s, localIp, act, l);
        var whole := QueueOf(s, l) + PushedBy(s, act, l);
        assert 0 !in whole && forall i | i in QueueOf(s', l) :: i in whole;
      } else {
        NewQueuesEmpty(s, localIp, act, l);
      }
    }
  }

  // ------------------------------------------------------- runs

  function Pushed(s: Stack, localIp: u32, acts: seq<Action>, l: SocketId): seq<SocketId>
    decreases |acts|
  {
    if acts == [] then [] else PushedBy(s, acts[0], l) + Pushed(Next(s, localIp, acts[0]), localIp, acts[1..], l)
  }

  function Handed(s: Stack, localIp: u32, acts: seq<Action>, l: SocketId): seq<SocketId>
    decreases |acts|
  {
    if acts == [] then [] else HandedBy(s, acts[0], l) + Handed(Next(s, localIp, acts[0]), localIp, acts[1..], l)
  }

  /**
   * Over every run that leaves the listener alive: the children waiting at first and those that
   * became ESTABLISHED on its port, in this order, are those that `accept` returned, in order,
   * and those still waiting.
   */
  lemma {:induction false} AcceptsInOrder(s: Stack, localIp: u32, acts: seq<Action>, l: SocketId)
    requires Coherent(s) && QueuesHoldSockets(s) && l in s.sockets && l in Run(s, localIp, acts).sockets
    ensures QueueOf(s, l) + Pushed(s, localIp, acts, l) == Handed(s, localIp, acts, l) + QueueOf(Run(s, localIp, acts), l)
    decreases |acts|
  {
    if acts == [] {
      assert QueueOf(s, l) + [] == [] + QueueOf(s, l);
    } else {
      var m := Next(s, localIp, acts[0]);
      NextEvolves(s, localIp, acts[0]);
      if l !in m.sockets { StaysDestroyed(m, localIp, acts[1..], l); }
      StepBalances(s, localIp, acts[0], l);
      StepKeepsSockets(s, localIp, acts[0]);
      AcceptsInOrder(m, localIp, acts[1..], l);
      Chain(QueueOf(s, l), PushedBy(s, acts[0], l), HandedBy(s, acts[0], l), QueueOf(m, l),
            Pushed(m, localIp, acts[1..], l), Handed(m, localIp, acts[1..], l), QueueOf(Run(m, localIp, acts[1..]), l));
    }
  }

  lemma Chain<T>(q: seq<T>, push: seq<T>, hand: seq<T>, m: seq<T>, push': seq<T>, hand': seq<T>, q': seq<T>)
    requires q + push == hand + m && m + push' == hand' + q'
    ensures q + (push + push') == (hand + hand') + q'
  {
    assert q + (push + push') == (q + push) + push' == hand + (m + push');
    assert hand + (hand' + q') == (hand + hand') + q';
  }

  lemma {:induction false} RunKeepsSockets(s: Stack, localIp: u32, acts: seq<Action>)
    requires Coherent(s) && QueuesHoldSockets(s)
    ensures Coherent(Run(s, localIp, acts)) && QueuesHoldSockets(Run(s, localIp, acts))
    decreases |acts|
  {
    if acts != [] {
      NextEvolves(s, localIp, acts[0]);
      StepKeepsSockets(s, localIp, acts[0]);
      RunKeepsSockets(Next(s, localIp, acts[0]), localIp, acts[1..]);
    }
  }

  /** In every reachable state, `accept` on a listener returns 0 if and only if no child waits. */
  lemma AcceptReturnsWaiting(localIp: u32, acts: seq<Action>, l: SocketId)
    ensures var s := Run(EMPTY, localIp, acts);
      Alive(s, l) && s.sockets[l].state.Listen? ==> (AcceptedChild(s, l) == 0 <==> s.sockets[l].acceptQueue == [])
  {
    RunKeepsSockets(EMPTY, localIp, acts);
    var s := Run(EMPTY, localIp, acts);
    if l in s.sockets && s.sockets[l].acceptQueue != [] {
      assert s.sockets[l].acceptQueue[0] in s.sockets[l].acceptQueue;
    }
  }
}

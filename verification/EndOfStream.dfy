/**
 * Who is released from waiting, over every run of a stack: a reader exactly after a FIN was
 * taken in or the socket was closed, a writer exactly after the close; and never earlier, so
 * that `recv` on a connection without either never reports the end of the stream.
 */
module EndOfStream {
  import opened Words
  import opened ControlBlock
  import opened StackModel
  import opened StackRuns
  import HalfClose
  import Sender
  import Stream

  /** A FIN was taken in, or the socket was closed. */
  predicate Ended(s: State) {
    s.CloseWait? || s.FinWait1? || s.FinWait2? || s.Closing? || s.LastAck?
  }

  /** Before either. */
  predicate Going(s: State) {
    s.Listen? || s.SynSent? || s.SynReceived? || s.Established?
  }

  ghost predicate RightlyWoken(t: Tcb) {
    && (Ended(t.state) ==> t.recvWoken)
    && (t.sendWoken ==> t.recvWoken)
    && (Going(t.state) ==> !t.recvWoken)
  }

  ghost predicate AllRightlyWoken(s: Stack) {
    forall id | id in s.sockets :: RightlyWoken(s.sockets[id])
  }

  /** `connect` and `listen` are not called on a socket that has been closed before. */
  ghost predicate OpensOnce(s: Stack, act: Action) {
    (act.ActConnect? || act.ActListen?) && Alive(s, act.id) ==> !s.sockets[act.id].recvWoken
  }

  // ------------------------------------------------------- one block

  lemma ReceiveWakesRightly(t: Tcb, p: Segment)
    requires RightlyWoken(t)
    ensures RightlyWoken(Receive(t, p).tcb) && (t.recvWoken ==> Receive(t, p).tcb.recvWoken)
  {
    HalfClose.ReceiveWakes(t, p);
    ReceiveStates(t, p);
  }

  /** No segment leads from the end of a stream back, or releases a writer. */
  lemma ReceiveStates(t: Tcb, p: Segment)
    ensures var t' := Receive(t, p).tcb;
      && t'.sendWoken == t.sendWoken
      && (Going(t'.state) ==> Going(t.state))
      && (Ended(t'.state) ==> Ended(t.state) || (t.state.Established? && p.fin))
      && (t.state.Established? && p.fin ==> !Going(t'.state))
  {
    if t.state.Established? {
      if !p.fin { Stream.AckKeepsReceiveSide(t, p); }
    } else {
      OtherStates(t, p);
    }
  }

  lemma OtherStates(t: Tcb, p: Segment)
    requires !t.state.Established?
    ensures var t' := Receive(t, p).tcb;
      && t'.sendWoken == t.sendWoken
      && (Going(t'.state) ==> Going(t.state)) && (Ended(t'.state) ==> Ended(t.state))
  {
  }

  lemma CloseWakesRightly(t: Tcb)
    ensures RightlyWoken(CloseConnection(t).tcb) && CloseConnection(t).tcb.recvWoken
  {
  }

  // ------------------------------------------------------- the stack

  ghost predicate KeepsReleased(s: Stack, s': Stack) {
    forall id | id in s.sockets && id in s'.sockets && s.sockets[id].recvWoken :: s'.sockets[id].recvWoken
  }

  lemma ApplyWakes(s: Stack, id: SocketId, r: Step, remote: Address)
    requires Alive(s, id) && AllRightlyWoken(s) && RightlyWoken(r.tcb) && (s.sockets[id].recvWoken ==> r.tcb.recvWoken)
    ensures var s' := Apply(s, id, r, remote); AllRightlyWoken(s') && KeepsReleased(s, s')
  {
    ApplyShape(s, id, r, remote);
  }

  lemma {:induction false} ProcessAllWakes(s: Stack, ids: seq<SocketId>)
    requires AllRightlyWoken(s)
    ensures var s' := ProcessAll(s, ids);
      AllRightlyWoken(s') && KeepsReleased(s, s') && s'.sockets.Keys <= s.sockets.Keys
    decreases |ids|
  {
    if ids != [] {
      if Alive(s, ids[0]) {
        Sender.ProcessKeepsRest(s.sockets[ids[0]]);
        ApplyWakes(s, ids[0], ProcessBlock(s.sockets[ids[0]]), s.sockets[ids[0]].dst);
        ApplyShape(s, ids[0], ProcessBlock(s.sockets[ids[0]]), s.sockets[ids[0]].dst);
      }
      ProcessAllWakes(ProcessOne(s, ids[0]), ids[1..]);
      StaysIn(s, ids);
    }
  }

  /** Processing destroys no socket, so nothing is forgotten between two rounds. */
  lemma StaysIn(s: Stack, ids: seq<SocketId>)
    requires ids != []
    ensures ProcessOne(s, ids[0]).sockets.Keys == s.sockets.Keys
  {
    if Alive(s, ids[0]) {
      var r := ProcessBlock(s.sockets[ids[0]]);
      assert r.effect.Keep?;
    }
  }

  lemma IncomingWakes(s: Stack, src: Address, dst: Address, p: Segment, iss: u32)
    requires Coherent(s) && AllRightlyWoken(s)
    ensures var s' := Incoming(s, src, dst, p, iss); AllRightlyWoken(s') && KeepsReleased(s, s')
  {
    var id := FindConnection(s, src, dst);
    if id != 0 && !s.sockets[id].state.Closed? && !s.sockets[id].state.Listen? {
      ReceiveWakesRightly(s.sockets[id], p);
      ApplyWakes(s, id, Receive(s.sockets[id], p), src);
    } else {
      UnroutedWakes(s, src, dst, p, iss);
    }
  }

  lemma UnroutedWakes(s: Stack, src: Address, dst: Address, p: Segment, iss: u32)
    requires Coherent(s) && AllRightlyWoken(s)
    ensures var s' := PassiveOpen(s, src, dst, p, iss); AllRightlyWoken(s') && KeepsReleased(s, s')
    ensures var s' := Refuse(s, src, dst, p); AllRightlyWoken(s') && KeepsReleased(s, s')
  {
  }

  lemma ConnectWakes(s: Stack, id: SocketId, remote: Address, localIp: u32, iss: u32)
    requires Coherent(s) && AllRightlyWoken(s)
    ensures var s' := Connect(s, id, remote, localIp, iss);
      KeepsReleased(s, s') && (OpensOnce(s, ActConnect(id, remote, iss)) ==> AllRightlyWoken(s'))
  {
  }

  lemma CallsWake(s: Stack, localIp: u32, act: Action)
    requires Coherent(s) && AllRightlyWoken(s)
    requires act.ActBind? || act.ActListen? || act.ActAccept? || act.ActSend? || act.ActRecv?
    ensures var s' := Next(s, localIp, act); KeepsReleased(s, s') && (OpensOnce(s, act) ==> AllRightlyWoken(s'))
  {
    match act
    case ActBind(addr, iss) => BindWakes(s, addr, localIp, iss);
    case _ =>
  }

  lemma BindWakes(s: Stack, addr: Address, localIp: u32, iss: u32)
    requires Coherent(s) && AllRightlyWoken(s)
    ensures var s' := Bind(s, addr, localIp, iss); KeepsReleased(s, s') && AllRightlyWoken(s')
  {
  }

  lemma NextWakes(s: Stack, localIp: u32, act: Action)
    requires Coherent(s) && AllRightlyWoken(s) && OpensOnce(s, act)
    ensures AllRightlyWoken(Next(s, localIp, act))
  {
    match act
    case ActArrive(src, dst, p, iss) => IncomingWakes(s, src, dst, p, iss);
    case ActProcessDirty => ProcessAllWakes(s.(dirty := []), s.dirty);
    case ActExpire(expired) => RetransmitAllKeepsSockets(s, expired);
    case ActConnect(id, remote, iss) => ConnectWakes(s, id, remote, localIp, iss);
    case ActClose(id) =>
      if Alive(s, id) {
        CloseWakesRightly(s.sockets[id]);
        ApplyWakes(s, id, CloseConnection(s.sockets[id]), s.sockets[id].dst);
      }
    case _ => CallsWake(s, localIp, act);
  }

  // ------------------------------------------------------- runs

  ghost predicate OpensOnceRun(s: Stack, localIp: u32, acts: seq<Action>)
    decreases |acts|
  {
    acts != [] ==> OpensOnce(s, acts[0]) && OpensOnceRun(Next(s, localIp, acts[0]), localIp, acts[1..])
  }

  lemma {:induction false} RunWakes(s: Stack, localIp: u32, acts: seq<Action>)
    requires Coherent(s) && AllRightlyWoken(s) && OpensOnceRun(s, localIp, acts)
    ensures Coherent(Run(s, localIp, acts)) && AllRightlyWoken(Run(s, localIp, acts))
    decreases |acts|
  {
    if acts != [] {
      NextEvolves(s, localIp, acts[0]);
      NextWakes(s, localIp, acts[0]);
      RunWakes(Next(s, localIp, acts[0]), localIp, acts[1..]);
    }
  }

  /**
   * In every state of every run: after a FIN was taken in or the socket was closed, `recv`
   * returns; and before, `recv` with a positive limit never returns without bytes, and `send`
   * never returns on a full buffer. So on an open connection `recv` gives nothing exactly in
   * CLOSE_WAIT, when all that was received has been read.
   */
  lemma EndOfStreamExactlyWhen(localIp: u32, acts: seq<Action>, id: SocketId, limit: nat)
    requires OpensOnceRun(EMPTY, localIp, acts) && limit > 0
    requires id in Run(EMPTY, localIp, acts).sockets
    ensures var t := Run(EMPTY, localIp, acts).sockets[id];
      && (Ended(t.state) ==> RecvReturns(t))
      && (Ended(t.state) ==> (HalfClose.ReadsNothing(t, limit) <==> t.recvBuf == []))
      && (Going(t.state) ==> !HalfClose.ReadsNothing(t, limit) && (SendReturns(t) <==> |t.sendBuf| < CAPACITY))
  {
    RunWakes(EMPTY, localIp, acts);
    var t := Run(EMPTY, localIp, acts).sockets[id];
    HalfClose.NothingLeft(Stream.Node(t, [], []), limit);
  }
}

/**
 * Graceful close of two quiescent ESTABLISHED endpoints over lossless FIFO channels, in every
 * interleaving of the two `close` calls and the deliveries (Figures 13 and 14 of RFC 793).
 */
module Teardown {
  import opened Words
  import opened ControlBlock

  datatype System = System(a: Tcb, b: Tcb, ab: seq<Segment>, ba: seq<Segment>)

  datatype Action =
    | Close        // the application calls close, from ESTABLISHED or CLOSE_WAIT
    | Deliver      // the oldest segment for this side arrives
    | Daemon       // the daemon processes this side's socket
    | Timeout      // this side's retransmission timer expires
    | Read(n: nat) // the application reads what is left in the receive buffer

  datatype Side = SideA | SideB

  function Mirror(s: System): System {
    System(s.b, s.a, s.ba, s.ab)
  }

  function Put(s: System, r: Step): System {
    s.(a := r.tcb, ab := s.ab + r.out)
  }

  function StepA(s: System, act: Action): System {
    match act
    case Close => if Unclosed(s.a.state) then Put(s, CloseConnection(s.a)) else s
    case Deliver => if s.ba == [] then s else Put(s.(ba := s.ba[1..]), Receive(s.a, s.ba[0]))
    case Daemon => Put(s, ProcessBlock(s.a))
    case Timeout => Put(s, Retransmit(s.a))
    case Read(n) => s.(a := Recv(s.a, n))
  }

  function Next(s: System, side: Side, act: Action): System {
    if side.SideA? then StepA(s, act) else Mirror(StepA(Mirror(s), act))
  }

  function Run(s: System, schedule: seq<(Side, Action)>): System
    decreases |schedule|
  {
    if schedule == [] then s else Run(Next(s, schedule[0].0, schedule[0].1), schedule[1..])
  }

  // ------------------------------------------------------- the invariant

  /** Where the two streams end: the sequence numbers that the two FINs will take. */
  datatype Ends = Ends(a: u32, b: u32)

  ghost predicate SentFin(s: State) {
    s.FinWait1? || s.FinWait2? || s.Closing? || s.LastAck? || s.Closed?
  }

  ghost predicate GotFin(s: State) {
    s.CloseWait? || s.Closing? || s.LastAck? || s.Closed?
  }

  ghost predicate FinAcked(s: State) {
    s.FinWait2? || s.Closed?
  }

  ghost predicate IsFin(p: Segment, seqNum: u32, ackNum: u32) {
    p.fin && p.ack && !p.syn && !p.rst && p.seqNum == seqNum && p.ackNum == ackNum && p.payload == []
  }

  ghost predicate IsAck(p: Segment, ackNum: u32) {
    !p.fin && p.ack && !p.syn && !p.rst && p.ackNum == ackNum && p.payload == []
  }

  /** What `x` still has on the wire to `y`: its FIN, the ACK of y's FIN, both, or nothing. */
  ghost predicate Pending(x: State, y: State, xy: seq<Segment>, endX: u32, endY: u32) {
    var finOut := SentFin(x) && !GotFin(y);
    var ackOut := GotFin(x) && !FinAcked(y);
    if finOut && ackOut && x.LastAck? then
      |xy| == 2 && IsAck(xy[0], Wrap(endY + 1)) && IsFin(xy[1], endX, Wrap(endY + 1))
    else if finOut && ackOut then
      |xy| == 2 && IsFin(xy[0], endX, endY) && IsAck(xy[1], Wrap(endY + 1))
    else if finOut then
      |xy| == 1 && IsFin(xy[0], endX, if x.LastAck? then Wrap(endY + 1) else endY)
    else if ackOut then
      |xy| == 1 && IsAck(xy[0], Wrap(endY + 1))
    else
      xy == []
  }

  ghost predicate Numbers(t: Tcb, endX: u32, endY: u32) {
    && t.sendBuf == []
    && t.sndUna == endX
    && t.sndNxt == (if SentFin(t.state) then Wrap(endX + 1) else endX)
    && t.rcvNxt == (if GotFin(t.state) then Wrap(endY + 1) else endY)
  }

  ghost predicate Compatible(x: State, y: State) {
    && (x.Established? || SentFin(x) || GotFin(x))
    && (GotFin(y) ==> SentFin(x))
    && (FinAcked(x) ==> GotFin(y))
    && !(x.Closing? && y.LastAck?)
    && !(x.FinWait2? && y.Closing?)
  }

  ghost predicate OneWay(x: Tcb, y: Tcb, xy: seq<Segment>, endX: u32, endY: u32) {
    && Numbers(x, endX, endY)
    && Compatible(x.state, y.state)
    && Pending(x.state, y.state, xy, endX, endY)
  }

  ghost predicate Inv(s: System, e: Ends) {
    OneWay(s.a, s.b, s.ab, e.a, e.b) && OneWay(s.b, s.a, s.ba, e.b, e.a)
  }

  /** ESTABLISHED on both sides, nothing buffered to send, nothing in flight. */
  ghost predicate Quiescent(s: System) {
    && s.a.state.Established? && s.b.state.Established?
    && s.a.sendBuf == s.b.sendBuf == []
    && s.a.sndUna == s.a.sndNxt == s.b.rcvNxt
    && s.b.sndUna == s.b.sndNxt == s.a.rcvNxt
    && s.ab == s.ba == []
  }

  // ------------------------------------------------------- every step keeps it

  /** With an empty send buffer the daemon and the timer emit nothing. */
  lemma DaemonIdle(t: Tcb)
    requires t.sendBuf == [] && !t.state.SynSent?
    ensures ProcessBlock(t) == Stay(t) && Retransmit(t) == Stay(t)
  {
  }

  lemma CloseKeepsInv(s: System, e: Ends)
    requires Inv(s, e)
    ensures Inv(StepA(s, Close), e)
  {
    DaemonIdle(s.a);
  }

  lemma DeliverFinKeepsInv(s: System, e: Ends)
    requires Inv(s, e) && s.ba != [] && s.ba[0].fin
    ensures Inv(StepA(s, Deliver), e)
  {
    var p := s.ba[0];
    assert IsFin(p, e.b, p.ackNum);
    assert !GotFin(s.a.state) && SentFin(s.b.state);
  }

  lemma DeliverAckKeepsInv(s: System, e: Ends)
    requires Inv(s, e) && s.ba != [] && !s.ba[0].fin
    ensures Inv(StepA(s, Deliver), e)
  {
    var p := s.ba[0];
    assert IsAck(p, Wrap(e.a + 1));
    assert SentFin(s.a.state) && !FinAcked(s.a.state);
    assert s.ab + [] == s.ab;
  }

  lemma StepAKeepsInv(s: System, act: Action, e: Ends)
    requires Inv(s, e)
    ensures Inv(StepA(s, act), e)
  {
    match act
    case Close => CloseKeepsInv(s, e);
    case Deliver =>
      if s.ba != [] {
        if s.ba[0].fin { DeliverFinKeepsInv(s, e); } else { DeliverAckKeepsInv(s, e); }
      }
    case Daemon => DaemonIdle(s.a); assert s.ab + [] == s.ab;
    case Timeout => DaemonIdle(s.a); assert s.ab + [] == s.ab;
    case Read(n) =>
  }

  lemma NextKeepsInv(s: System, side: Side, act: Action, e: Ends)
    requires Inv(s, e)
    ensures Inv(Next(s, side, act), e)
  {
    if side.SideA? { StepAKeepsInv(s, act, e); } else { StepAKeepsInv(Mirror(s), act, Ends(e.b, e.a)); }
  }

  // ------------------------------------------------------- termination

  function Weight(channel: seq<Segment>): nat {
    if channel == [] then 0 else (if channel[0].fin then 2 else 1) + Weight(channel[1..])
  }

  /** An open side is worth 3, a FIN in flight 2, an ACK in flight 1. */
  function Potential(s: System): nat {
    (if Unclosed(s.a.state) then 3 else 0) + (if Unclosed(s.b.state) then 3 else 0) + Weight(s.ab) + Weight(s.ba)
  }

  /** A close call that takes effect, or a delivery. */
  predicate EffectiveA(s: System, act: Action) {
    (act.Close? && Unclosed(s.a.state)) || (act.Deliver? && s.ba != [])
  }

  predicate Effective(s: System, side: Side, act: Action) {
    EffectiveA(if side.SideA? then s else Mirror(s), act)
  }

  function EffectiveSteps(s: System, schedule: seq<(Side, Action)>): nat
    decreases |schedule|
  {
    if schedule == [] then 0
    else
      (if Effective(s, schedule[0].0, schedule[0].1) then 1 else 0)
      + EffectiveSteps(Next(s, schedule[0].0, schedule[0].1), schedule[1..])
  }

  lemma {:induction false} WeightAppend(channel: seq<Segment>, p: Segment)
    ensures Weight(channel + [p]) == Weight(channel) + (if p.fin then 2 else 1)
  {
    if channel == [] {
      assert Weight([p]) == (if p.fin then 2 else 1) + Weight([]);
    } else {
      WeightAppend(channel[1..], p);
      assert (channel + [p])[1..] == channel[1..] + [p];
    }
  }

  lemma CloseSpends(s: System, e: Ends)
    requires Inv(s, e) && Unclosed(s.a.state)
    ensures Potential(StepA(s, Close)) < Potential(s)
  {
    DaemonIdle(s.a);
    WeightAppend(s.ab, CloseConnection(s.a).out[0]);
    assert CloseConnection(s.a).out == [CloseConnection(s.a).out[0]];
  }

  lemma DeliverSpends(s: System, e: Ends)
    requires Inv(s, e) && s.ba != []
    ensures Potential(StepA(s, Deliver)) < Potential(s)
  {
    var r := Receive(s.a, s.ba[0]);
    DeliverReplies(s, e);
    if s.ba[0].fin {
      WeightAppend(s.ab, r.out[0]);
      assert r.out == [r.out[0]];
    } else {
      assert s.ab + r.out == s.ab;
    }
  }

  /** A FIN is answered by one ACK, an ACK by nothing. */
  lemma DeliverReplies(s: System, e: Ends)
    requires Inv(s, e) && s.ba != []
    ensures var r := Receive(s.a, s.ba[0]);
      if s.ba[0].fin then |r.out| == 1 && !r.out[0].fin && Unclosed(r.tcb.state) == Unclosed(s.a.state)
      else r.out == [] && Unclosed(r.tcb.state) == Unclosed(s.a.state)
  {
    if s.ba[0].fin {
      assert !GotFin(s.a.state);
    } else {
      assert IsAck(s.ba[0], Wrap(e.a + 1));
      assert SentFin(s.a.state) && !FinAcked(s.a.state);
    }
  }

  lemma StepASpends(s: System, act: Action, e: Ends)
    requires Inv(s, e)
    ensures Potential(StepA(s, act)) + (if EffectiveA(s, act) then 1 else 0) <= Potential(s)
  {
    match act
    case Close => if Unclosed(s.a.state) { CloseSpends(s, e); }
    case Deliver => if s.ba != [] { DeliverSpends(s, e); }
    case Daemon => DaemonIdle(s.a); assert s.ab + [] == s.ab;
    case Timeout => DaemonIdle(s.a); assert s.ab + [] == s.ab;
    case Read(n) =>
  }

  lemma MirrorPotential(s: System)
    ensures Potential(Mirror(s)) == Potential(s)
  {
  }

  lemma NextSpends(s: System, side: Side, act: Action, e: Ends)
    requires Inv(s, e)
    ensures Potential(Next(s, side, act)) + (if Effective(s, side, act) then 1 else 0) <= Potential(s)
  {
    if side.SideA? {
      StepASpends(s, act, e);
    } else {
      StepASpends(Mirror(s), act, Ends(e.b, e.a));
      MirrorPotential(s);
      MirrorPotential(StepA(Mirror(s), act));
    }
  }

  lemma {:induction false} RunSpends(s: System, schedule: seq<(Side, Action)>, e: Ends)
    requires Inv(s, e)
    ensures Inv(Run(s, schedule), e)
    ensures EffectiveSteps(s, schedule) + Potential(Run(s, schedule)) <= Potential(s)
    decreases |schedule|
  {
    if schedule != [] {
      var side, act := schedule[0].0, schedule[0].1;
      NextKeepsInv(s, side, act, e);
      NextSpends(s, side, act, e);
      RunSpends(Next(s, side, act), schedule[1..], e);
    }
  }

  // ------------------------------------------------------- the theorems

  /** Nothing is left that could take effect: no open side, no segment in flight. */
  predicate Finished(s: System) {
    !Unclosed(s.a.state) && !Unclosed(s.b.state) && s.ab == [] && s.ba == []
  }

  lemma FinishedIsClosed(s: System, e: Ends)
    requires Inv(s, e)
    ensures Finished(s) <==> s.a.state.Closed? && s.b.state.Closed?
  {
  }

  lemma NoResetInFlight(x: Tcb, y: Tcb, xy: seq<Segment>, endX: u32, endY: u32)
    requires OneWay(x, y, xy, endX, endY)
    ensures forall p | p in xy :: !p.rst
  {
  }

  lemma QuiescentImpliesInv(s: System)
    requires Quiescent(s)
    ensures Inv(s, Ends(s.a.sndNxt, s.b.sndNxt)) && Potential(s) == 6
  {
  }

  /**
   * From two quiescent ESTABLISHED endpoints, in every interleaving: at most six close calls
   * and deliveries ever take effect, and the run has nothing left to do if and only if both
   * sides are CLOSED. No run emits a reset.
   */
  lemma TeardownCompletes(s: System, schedule: seq<(Side, Action)>)
    requires Quiescent(s)
    ensures EffectiveSteps(s, schedule) <= 6
    ensures var t := Run(s, schedule); Finished(t) <==> t.a.state.Closed? && t.b.state.Closed?
    ensures var t := Run(s, schedule); (forall p | p in t.ab :: !p.rst) && (forall p | p in t.ba :: !p.rst)
  {
    var e := Ends(s.a.sndNxt, s.b.sndNxt);
    QuiescentImpliesInv(s);
    RunSpends(s, schedule, e);
    var t := Run(s, schedule);
    FinishedIsClosed(t, e);
    NoResetInFlight(t.a, t.b, t.ab, e.a, e.b);
    NoResetInFlight(t.b, t.a, t.ba, e.b, e.a);
  }
}

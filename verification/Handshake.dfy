/**
 * Connection establishment over a network that loses, duplicates and reorders: the network is
 * the set of segments ever sent in one incarnation, and any of them may be delivered at any
 * time, any number of times, or never. Data transfer and closing go on in the same system.
 */
module Handshake {
  import opened Words
  import opened ControlBlock

  /**
   * One end. `Idle`: no socket yet. `Listening`: a bound, listening port. `Live`: the control
   * block of the connection. `Gone`: the block was reset in SYN_RECEIVED and freed.
   */
  datatype Host =
    | Idle
    | Listening
    | Live(tcb: Tcb, passive: bool)
    | Gone(tcb: Tcb, passive: bool)

  /** `issA` and `issB` are the arbitrary numbers the two ends draw when they open. */
  datatype System = System(a: Host, b: Host, issA: u32, issB: u32, ab: set<Segment>, ba: set<Segment>)

  datatype Action =
    | Connect(blank: Tcb)   // active open on a socket in the given, so far unused, block
    | Deliver(p: Segment)
    | Daemon
    | Timeout
    | Send(data: seq<u8>)
    | Recv(limit: nat)
    | Close

  function Mirror(s: System): System {
    System(s.b, s.a, s.issB, s.issA, s.ba, s.ab)
  }

  function Emit(s: System, host: Host, out: seq<Segment>): System {
    s.(a := host, ab := s.ab + (set p | p in out))
  }

  /** The block after a step, kept or freed. */
  function Settle(h: Host, r: Step): Host
    requires h.Live?
  {
    if r.effect.AbortSocket? then Gone(r.tcb, h.passive) else Live(r.tcb, h.passive)
  }

  /** A reset child of a listener would be replaced by a new one: a new incarnation. */
  predicate NewIncarnation(h: Host, p: Segment) {
    h.Gone? && h.passive && p.syn && !p.ack
  }

  predicate EnabledA(s: System, act: Action) {
    match act
    case Connect(blank) => s.a.Idle?
    case Deliver(p) => p in s.ba && !NewIncarnation(s.a, p)
    case _ => s.a.Live?
  }

  /**
   * A close, in whatever state, of a block that has taken over the peer's number, or whose
   * RCV.NXT is at least not by chance what the peer waits to see acknowledged. Only a block in
   * SYN_SENT, or one that a reset took from there to CLOSED, can fail this.
   */
  predicate Unmistakable(s: System, act: Action) {
    act.Close? && s.a.Live? ==> s.a.tcb.irs == s.issB || s.a.tcb.rcvNxt != Wrap(s.issB + 1)
  }

  /** Delivery to the end `h`, which draws `iss` if the segment opens a connection. */
  function Accept(h: Host, p: Segment, iss: u32): (Host, seq<Segment>) {
    match h
    case Idle => (h, ClosedReset(p))
    case Gone(_, _) => (h, ClosedReset(p))
    case Listening =>
      if p.syn && !p.ack then
        var child := PassiveChild(0, Address(0, 0), Address(0, 0), p, iss);
        (Live(child, true), [SynAckOf(child)])
      else
        (h, ClosedReset(p))
    case Live(tcb, passive) =>
      var r := Receive(tcb, p);
      (Settle(h, r), r.out)
  }

  function StepA(s: System, act: Action): System
    requires EnabledA(s, act)
  {
    match act
    case Connect(blank) => s.(a := Live(StartConnect(blank, s.issA), false))
    case Deliver(p) => var (h, out) := Accept(s.a, p, s.issA); Emit(s, h, out)
    case Daemon => var r := ProcessBlock(s.a.tcb); Emit(s, Settle(s.a, r), r.out)
    case Timeout => var r := Retransmit(s.a.tcb); Emit(s, Settle(s.a, r), r.out)
    case Send(data) => s.(a := Live(ControlBlock.Send(s.a.tcb, data), s.a.passive))
    case Recv(limit) => s.(a := Live(ControlBlock.Recv(s.a.tcb, limit), s.a.passive))
    case Close => var r := CloseConnection(s.a.tcb); Emit(s, Settle(s.a, r), r.out)
  }

  datatype Side = SideA | SideB

  predicate Enabled(s: System, side: Side, act: Action) {
    EnabledA(if side.SideA? then s else Mirror(s), act)
  }

  function Next(s: System, side: Side, act: Action): System
    requires Enabled(s, side, act)
  {
    if side.SideA? then StepA(s, act) else Mirror(StepA(Mirror(s), act))
  }

  // ------------------------------------------------------- the invariant

  predicate HasTcb(h: Host) {
    h.Live? || h.Gone?
  }

  predicate InState(h: Host, s: State) {
    h.Live? && h.tcb.state == s
  }

  /** The end has taken over the peer's initial sequence number. */
  ghost predicate Recorded(h: Host, peerIss: u32) {
    HasTcb(h) && !h.tcb.state.SynSent? && h.tcb.irs == peerIss
  }

  ghost predicate HostOk(h: Host, iss: u32, peerIss: u32) {
    HasTcb(h) ==>
      && h.tcb.iss == iss
      && !h.tcb.state.Listen? && !h.tcb.state.TimeWait?
      && (h.tcb.state.SynSent? ==> h.tcb.sndUna == iss && h.tcb.sndNxt == Wrap(iss + 1))
      && (h.tcb.state.SynReceived? ==>
            && h.tcb.sndNxt == Wrap(iss + 1)
            && h.tcb.rcvNxt == Wrap(peerIss + 1))
      && (!h.tcb.state.SynSent? && !h.tcb.state.Closed? && !h.tcb.state.LastAck? ==> h.tcb.irs == peerIss)
      && (h.tcb.state.LastAck? ==> h.tcb.irs == peerIss || h.tcb.rcvNxt != Wrap(peerIss + 1))
  }

  /**
   * What any segment from `h` says: a SYN carries its ISS, an ACK of the peer's SYN that it
   * knows the peer's.
   */
  ghost predicate SegmentOk(p: Segment, h: Host, iss: u32, peerIss: u32) {
    && (p.syn ==> !p.rst && p.seqNum == iss)
    && (p.ack && !p.rst && p.ackNum == Wrap(peerIss + 1) ==> Recorded(h, peerIss))
    && (p.syn && p.ack ==> p.ackNum == Wrap(peerIss + 1))
  }

  ghost predicate SideOk(h: Host, iss: u32, peerIss: u32, sent: set<Segment>) {
    HostOk(h, iss, peerIss) && forall p | p in sent :: SegmentOk(p, h, iss, peerIss)
  }

  ghost predicate Inv(s: System) {
    SideOk(s.a, s.issA, s.issB, s.ab) && SideOk(s.b, s.issB, s.issA, s.ba)
  }

  /** Before anything is sent: each end is idle or listening. */
  ghost predicate Initial(s: System) {
    (s.a.Idle? || s.a.Listening?) && (s.b.Idle? || s.b.Listening?) && s.ab == s.ba == {}
  }

  // ------------------------------------------------------- every step keeps it

  /** What one step of a live block must deliver to keep the invariant of its own side. */
  ghost predicate StepOk(h: Host, r: Step, iss: u32, peerIss: u32)
    requires h.Live?
  {
    var h' := Settle(h, r);
    && HostOk(h', iss, peerIss)
    && (Recorded(h, peerIss) ==> Recorded(h', peerIss))
    && (forall p | p in r.out :: SegmentOk(p, h', iss, peerIss))
  }

  lemma DaemonOk(h: Host, iss: u32, peerIss: u32)
    requires h.Live? && HostOk(h, iss, peerIss)
    ensures StepOk(h, ProcessBlock(h.tcb), iss, peerIss) && StepOk(h, Retransmit(h.tcb), iss, peerIss)
  {
  }

  lemma CloseOk(h: Host, iss: u32, peerIss: u32)
    requires h.Live? && HostOk(h, iss, peerIss)
    requires h.tcb.irs == peerIss || h.tcb.rcvNxt != Wrap(peerIss + 1)
    ensures StepOk(h, CloseConnection(h.tcb), iss, peerIss)
  {
  }

  /** A segment from the peer that fits what the peer knows. */
  ghost predicate FromPeer(p: Segment, iss: u32, peerIss: u32) {
    (p.syn ==> !p.rst && p.seqNum == peerIss) && (p.syn && p.ack ==> p.ackNum == Wrap(iss + 1))
  }

  lemma SynSentOk(h: Host, p: Segment, iss: u32, peerIss: u32)
    requires h.Live? && h.tcb.state.SynSent? && HostOk(h, iss, peerIss) && FromPeer(p, iss, peerIss)
    ensures StepOk(h, Receive(h.tcb, p), iss, peerIss)
  {
  }

  lemma SynReceivedOk(h: Host, p: Segment, iss: u32, peerIss: u32)
    requires h.Live? && h.tcb.state.SynReceived? && HostOk(h, iss, peerIss)
    ensures StepOk(h, Receive(h.tcb, p), iss, peerIss)
  {
  }

  /** Past the handshake no handler touches ISS or IRS, and every reply but a reset is an ACK. */
  lemma LaterOk(h: Host, p: Segment, iss: u32, peerIss: u32)
    requires h.Live? && !h.tcb.state.SynSent? && !h.tcb.state.SynReceived? && HostOk(h, iss, peerIss)
    ensures StepOk(h, Receive(h.tcb, p), iss, peerIss)
  {
    var r := Receive(h.tcb, p);
    LaterShape(h.tcb, p);
    assert Settle(h, r) == Live(r.tcb, h.passive);
  }

  /** Only resets and plain acknowledgements, and no change of ISS or IRS. */
  ghost predicate Later(t: Tcb, r: Step) {
    && r.tcb.iss == t.iss && r.tcb.irs == t.irs && !r.effect.AbortSocket?
    && !r.tcb.state.SynSent? && !r.tcb.state.SynReceived?
    && (t.state.Closed? || r.tcb.state.LastAck? ==> r.tcb == t)
    && (r.tcb.state.Listen? ==> t.state.Listen?) && (r.tcb.state.TimeWait? ==> t.state.TimeWait?)
    && (forall q | q in r.out :: !q.syn && (q.rst || (!t.state.Closed? && !t.state.LastAck?)))
  }

  lemma EstablishedShape(t: Tcb, p: Segment)
    requires t.state.Established?
    ensures Later(t, HandleEstablished(t, p))
  {
  }

  lemma LaterShape(t: Tcb, p: Segment)
    requires !t.state.SynSent? && !t.state.SynReceived?
    ensures Later(t, Receive(t, p))
  {
    if t.state.Established? { EstablishedShape(t, p); }
  }

  lemma AcceptOk(h: Host, p: Segment, iss: u32, peerIss: u32, sent: set<Segment>)
    requires SideOk(h, iss, peerIss, sent) && FromPeer(p, iss, peerIss)
    ensures var (h', out) := Accept(h, p, iss);
      SideOk(h', iss, peerIss, sent + (set q | q in out))
  {
    if h.Live? {
      if h.tcb.state.SynSent? { SynSentOk(h, p, iss, peerIss); }
      else if h.tcb.state.SynReceived? { SynReceivedOk(h, p, iss, peerIss); }
      else { LaterOk(h, p, iss, peerIss); }
    }
  }

  lemma StepAKeepsInv(s: System, act: Action)
    requires Inv(s) && EnabledA(s, act) && Unmistakable(s, act)
    ensures Inv(StepA(s, act))
  {
    match act
    case Deliver(p) => AcceptOk(s.a, p, s.issA, s.issB, s.ab);
    case Daemon => DaemonOk(s.a, s.issA, s.issB);
    case Timeout => DaemonOk(s.a, s.issA, s.issB);
    case Close => CloseOk(s.a, s.issA, s.issB);
    case _ =>
  }

  lemma NextKeepsInv(s: System, side: Side, act: Action)
    requires Inv(s) && Enabled(s, side, act) && Unmistakable(From(s, side), act)
    ensures Inv(Next(s, side, act))
  {
    StepAKeepsInv(if side.SideA? then s else Mirror(s), act);
  }

  // ------------------------------------------------------- the theorem

  /** The agreement RFC 793 asks for when `h` becomes ESTABLISHED. */
  ghost predicate Agreed(h: Host, peer: Host, iss: u32, peerIss: u32) {
    && h.Live?
    && h.tcb.iss == iss
    && h.tcb.irs == peerIss && h.tcb.rcvNxt == Wrap(peerIss + 1)
    && h.tcb.sndUna == h.tcb.sndNxt == Wrap(iss + 1)
    && Recorded(peer, iss)
  }

  lemma EntryAgrees(s: System, act: Action)
    requires Inv(s) && EnabledA(s, act)
    requires !InState(s.a, Established) && InState(StepA(s, act).a, Established)
    ensures act.Deliver?
    ensures Agreed(StepA(s, act).a, s.b, s.issA, s.issB)
  {
    assert s.a.Live?;
    OnlyDeliveryEstablishes(s, act);
    var p := act.p;
    if s.a.tcb.state.SynSent? || s.a.tcb.state.SynReceived? {
      assert p.ack && !p.rst;
      assert SegmentOk(p, s.b, s.issB, s.issA);
    } else {
      LaterEstablished(s.a.tcb, p);
    }
  }

  lemma OnlyDeliveryEstablishes(s: System, act: Action)
    requires Inv(s) && EnabledA(s, act) && s.a.Live?
    requires !InState(s.a, Established) && InState(StepA(s, act).a, Established)
    ensures act.Deliver?
  {
  }

  lemma LaterEstablished(t: Tcb, p: Segment)
    requires !t.state.SynSent? && !t.state.SynReceived? && !t.state.Established?
    ensures !Receive(t, p).tcb.state.Established?
  {
  }

  /** A run: each step enabled where it is taken, closes in any state. */
  ghost predicate IsRun(s: System, schedule: seq<(Side, Action)>)
    decreases |schedule|
  {
    schedule != [] ==>
      Enabled(s, schedule[0].0, schedule[0].1) && IsRun(Next(s, schedule[0].0, schedule[0].1), schedule[1..])
  }

  ghost function Run(s: System, schedule: seq<(Side, Action)>): System
    requires IsRun(s, schedule)
    decreases |schedule|
  {
    if schedule == [] then s else Run(Next(s, schedule[0].0, schedule[0].1), schedule[1..])
  }

  ghost predicate UnmistakableRun(s: System, schedule: seq<(Side, Action)>)
    requires IsRun(s, schedule)
    decreases |schedule|
  {
    schedule != [] ==>
      && Unmistakable(From(s, schedule[0].0), schedule[0].1)
      && UnmistakableRun(Next(s, schedule[0].0, schedule[0].1), schedule[1..])
  }

  lemma {:induction false} RunKeepsInv(s: System, schedule: seq<(Side, Action)>)
    requires Inv(s) && IsRun(s, schedule) && UnmistakableRun(s, schedule)
    ensures Inv(Run(s, schedule))
    decreases |schedule|
  {
    if schedule != [] {
      NextKeepsInv(s, schedule[0].0, schedule[0].1);
      RunKeepsInv(Next(s, schedule[0].0, schedule[0].1), schedule[1..]);
    }
  }

  /** The system seen from one side, as its side `a`. */
  function From(s: System, side: Side): System {
    if side.SideA? then s else Mirror(s)
  }

  /**
   * After any run from the start, whatever was lost, duplicated or reordered and whichever end
   * was closed in whatever state: a step that takes an end into ESTABLISHED leaves it in
   * agreement with a peer that already knows its ISS. Active, passive and simultaneous opens
   * are all covered. `MistakenAck` shows that the one condition on closes is needed.
   */
  lemma HandshakeAgreement(s: System, schedule: seq<(Side, Action)>, side: Side, act: Action)
    requires Initial(s) && IsRun(s, schedule) && UnmistakableRun(s, schedule)
    requires Enabled(Run(s, schedule), side, act)
    ensures
      var x := From(Run(s, schedule), side);
      var x' := StepA(x, act);
      !InState(x.a, Established) && InState(x'.a, Established) ==>
        Agreed(x'.a, x.b, From(s, side).issA, From(s, side).issB)
  {
    RunKeepsInv(s, schedule);
    RunKeepsIss(s, schedule);
    var x := From(Run(s, schedule), side);
    if !InState(x.a, Established) && InState(StepA(x, act).a, Established) {
      EntryAgrees(x, act);
    }
  }

  lemma {:induction false} RunKeepsIss(s: System, schedule: seq<(Side, Action)>)
    requires IsRun(s, schedule)
    ensures Run(s, schedule).issA == s.issA && Run(s, schedule).issB == s.issB
    decreases |schedule|
  {
    if schedule != [] {
      RunKeepsIss(Next(s, schedule[0].0, schedule[0].1), schedule[1..]);
    }
  }

  // ------------------------------------------------------- when no close can be mistaken

  ghost predicate SafeHost(h: Host, peerIss: u32) {
    HasTcb(h) ==> h.tcb.irs == peerIss || h.tcb.rcvNxt != Wrap(peerIss + 1)
  }

  ghost predicate Safe(s: System) {
    SafeHost(s.a, s.issB) && SafeHost(s.b, s.issA)
  }

  /** What can be checked when a block is created: RCV.NXT is not the number after the peer's ISS. */
  predicate SafeConnect(s: System, act: Action) {
    act.Connect? ==> act.blank.rcvNxt != Wrap(s.issB + 1)
  }

  lemma SafeReceive(h: Host, p: Segment, iss: u32, peerIss: u32)
    requires h.Live? && HostOk(h, iss, peerIss) && FromPeer(p, iss, peerIss) && SafeHost(h, peerIss)
    ensures SafeHost(Settle(h, Receive(h.tcb, p)), peerIss)
  {
    if !h.tcb.state.SynSent? && !h.tcb.state.SynReceived? {
      LaterShape(h.tcb, p);
      if h.tcb.state.LastAck? { assert Receive(h.tcb, p).tcb == h.tcb.(state := Receive(h.tcb, p).tcb.state); }
    }
  }

  lemma SafeCalls(t: Tcb)
    ensures ProcessBlock(t).tcb.irs == t.irs && ProcessBlock(t).tcb.rcvNxt == t.rcvNxt
    ensures Retransmit(t).tcb == t
    ensures CloseConnection(t).tcb.irs == t.irs && CloseConnection(t).tcb.rcvNxt == t.rcvNxt
  {
  }

  lemma StepAKeepsSafe(s: System, act: Action)
    requires Inv(s) && EnabledA(s, act) && Safe(s) && SafeConnect(s, act)
    ensures Unmistakable(s, act) && Safe(StepA(s, act))
  {
    match act
    case Deliver(p) => if s.a.Live? { SafeReceive(s.a, p, s.issA, s.issB); }
    case Connect(_) =>
    case _ => SafeCalls(s.a.tcb);
  }

  /** With such blocks every run is covered by `HandshakeAgreement`, however it closes. */
  lemma {:induction false} SafeRunIsUnmistakable(s: System, schedule: seq<(Side, Action)>)
    requires Inv(s) && Safe(s) && IsRun(s, schedule)
    requires forall k | 0 <= k < |schedule| :: SafeConnect(From(s, schedule[k].0), schedule[k].1)
    ensures UnmistakableRun(s, schedule)
    decreases |schedule|
  {
    if schedule != [] {
      var (side, act) := schedule[0];
      var m := Next(s, side, act);
      StepAKeepsSafe(From(s, side), act);
      NextKeepsInv(s, side, act);
      assert m.issA == s.issA && m.issB == s.issB;
      forall k | 0 <= k < |schedule| - 1 ensures SafeConnect(From(m, schedule[1..][k].0), schedule[1..][k].1) {
        assert SafeConnect(From(s, schedule[k + 1].0), schedule[k + 1].1);
      }
      SafeRunIsUnmistakable(m, schedule[1..]);
    }
  }

  // ------------------------------------------------------- a close that is mistaken for an ACK

  /**
   * The condition is needed, for any block whose RCV.NXT happens to be the number after the
   * peer's ISS. (A block as created has 0, and the peer may draw 2^32 - 1.) The end connects and
   * its SYN makes a half-open peer; it is written to and closed in SYN_SENT, which makes it
   * LAST_ACK; the daemon sends data with that RCV.NXT as its acknowledgement; and this
   * establishes the peer, whose number nobody has recorded.
   */
  lemma MistakenAck(s: System, blank: Tcb, data: seq<u8>)
    requires Initial(s) && s.a.Idle? && s.b.Listening?
    requires blank.rcvNxt == Wrap(s.issB + 1) && blank.irs != s.issB
    requires blank.sendBuf == [] && blank.sndWnd > 1 && |data| == 2
    ensures
      var syn := ProcessBlock(StartConnect(blank, s.issA)).out[0];
      var s1 := StepA(s, Connect(blank));
      var s2 := StepA(s1, Daemon);
      && EnabledA(Mirror(s2), Deliver(syn))
      && var s3 := Mirror(StepA(Mirror(s2), Deliver(syn)));
      && s3.a.Live?
      && var s4 := StepA(StepA(s3, Send(data)), Close);
      && !Unmistakable(StepA(s3, Send(data)), Close)
      && s4.a.Live? && InState(s4.a, LastAck)
      && ProcessBlock(s4.a.tcb).out != []
      && var ack := ProcessBlock(s4.a.tcb).out[0];
      && var s5 := Mirror(StepA(s4, Daemon));
      && EnabledA(s5, Deliver(ack))
      && !InState(s5.a, Established) && InState(StepA(s5, Deliver(ack)).a, Established)
      && !Recorded(s5.b, s.issB)
  {
    var t := StartConnect(blank, s.issA);
    EarlyClose(t, data);
    var syn := ProcessBlock(t).out[0];
    var s2 := StepA(StepA(s, Connect(blank)), Daemon);
    var s3 := Mirror(StepA(Mirror(s2), Deliver(syn)));
    var child := PassiveChild(0, Address(0, 0), Address(0, 0), syn, s.issB);
    assert s3.a == Live(t, false) && s3.b == Live(child, true);
    MistakenEnd(s3, t, child, data);
  }

  /** The second half: a half-open peer, and a connecting end about to be closed. */
  lemma MistakenEnd(s: System, t: Tcb, child: Tcb, data: seq<u8>)
    requires s.a == Live(t, false) && s.b == Live(child, true)
    requires t.state.SynSent? && t.sendBuf == [] && t.sndNxt == Wrap(t.sndUna + 1) && t.sndWnd > 1 && |data| == 2
    requires t.rcvNxt == Wrap(s.issB + 1) && t.irs != s.issB
    requires child.state.SynReceived? && child.sndNxt == Wrap(s.issB + 1)
    ensures !Unmistakable(StepA(s, Send(data)), Close)
    ensures var s4 := StepA(StepA(s, Send(data)), Close);
      && s4.a.Live? && InState(s4.a, LastAck)
      && ProcessBlock(s4.a.tcb).out != []
      && var ack, s5 := ProcessBlock(s4.a.tcb).out[0], Mirror(StepA(s4, Daemon));
      && EnabledA(s5, Deliver(ack))
      && !InState(s5.a, Established) && InState(StepA(s5, Deliver(ack)).a, Established)
      && !Recorded(s5.b, s.issB)
  {
    EarlyClose(t, data);
    EarlyChild(child, ProcessBlock(CloseConnection(ControlBlock.Send(t, data)).tcb).out[0]);
  }

  /** A connecting block that is written to and closed: LAST_ACK, with a byte to send. */
  lemma EarlyClose(t: Tcb, data: seq<u8>)
    requires t.state.SynSent? && t.sendBuf == [] && t.sndNxt == Wrap(t.sndUna + 1) && t.sndWnd > 1 && |data| == 2
    ensures ProcessBlock(t).tcb == t && |ProcessBlock(t).out| == 1
    ensures var syn := ProcessBlock(t).out[0]; syn.syn && !syn.ack && syn.seqNum == t.iss
    ensures var r := CloseConnection(ControlBlock.Send(t, data));
      && r.tcb.state.LastAck? && r.tcb.irs == t.irs && r.out == [] && !r.effect.AbortSocket?
      && |ProcessBlock(r.tcb).out| == 1
      && var p := ProcessBlock(r.tcb).out[0];
      p.ack && !p.rst && !p.syn && p.ackNum == t.rcvNxt
  {
    assert Taken(t.sendBuf, data) == data;
    var t' := CloseConnection(ControlBlock.Send(t, data)).tcb;
    WrapPlus(t.sndUna + 1, 0 - t.sndUna);
    assert InFlight(t') == 1;
  }

  lemma EarlyChild(t: Tcb, p: Segment)
    requires t.state.SynReceived? && p.ack && !p.rst && p.ackNum == t.sndNxt
    ensures Receive(t, p).tcb.state.Established? && !Receive(t, p).effect.AbortSocket?
  {
  }
}

/** What a round over the expired retransmission timers writes, for any list of sockets. */
module Timers {
  import opened Words
  import opened ControlBlock
  import opened StackModel
  import StackRuns

  /** The sockets that have something to repeat, in the order of the list. */
  function Due(s: Stack, ids: seq<SocketId>): seq<SocketId> {
    if ids == [] then []
    else (if IsDue(s, ids[0]) then [ids[0]] else []) + Due(s, ids[1..])
  }

  /** Alive, ESTABLISHED, with bytes in flight and in the send buffer. */
  predicate IsDue(s: Stack, id: SocketId) {
    && id != 0 && id in s.sockets
    && s.sockets[id].state.Established?
    && s.sockets[id].sndNxt != s.sockets[id].sndUna && s.sockets[id].sendBuf != []
  }

  /** A packet to the peer of `t` that repeats its oldest unacknowledged bytes. */
  ghost predicate Repeats(t: Tcb, p: Packet) {
    && p.src == t.src && p.dst == t.dst
    && p.seg.seqNum == t.sndUna && p.seg.ackNum == t.rcvNxt
    && p.seg.ack && !p.seg.syn && !p.seg.rst && !p.seg.fin
    && p.seg.window == CAPACITY - |t.recvBuf|
    && p.seg.payload == t.sendBuf[..Min(|t.sendBuf|, Min((t.sndNxt - t.sndUna) % 0x1_0000_0000, 1460))]
    && p.seg.payload != []
  }

  /** One packet behind the output for a socket that is due, nothing for another. */
  lemma OneTimer(s: Stack, id: SocketId)
    ensures var s' := RetransmitAll(s, [id]);
      if IsDue(s, id) then |s'.out| == |s.out| + 1 && s.out <= s'.out && Repeats(s.sockets[id], s'.out[|s.out|])
      else s'.out == s.out
  {
    assert [id][1..] == [];
    if Alive(s, id) {
      BlockRepeats(s.sockets[id]);
      StackRuns.RetransmitAllKeepsSockets(s, [id]);
    }
  }

  lemma BlockRepeats(t: Tcb)
    ensures var r := Retransmit(t);
      && r.tcb == t && r.effect.Keep? && !r.dirty
      && if t.state.Established? && t.sndNxt != t.sndUna && t.sendBuf != []
         then |r.out| == 1 && Repeats(t, Packet(t.src, t.dst, r.out[0]))
         else r.out == []
  {
    if t.sndNxt == t.sndUna { WrapSmall(0); }
    if InFlight(t) == 0 { WrapInjective(t.sndNxt, t.sndUna); }
  }

  /** A list is worked off one by one. */
  lemma Split(s: Stack, ids: seq<SocketId>)
    requires ids != []
    ensures RetransmitAll(s, ids) == RetransmitAll(RetransmitAll(s, [ids[0]]), ids[1..])
  {
    assert [ids[0]][1..] == [];
  }

  lemma {:induction false} DueFrame(s: Stack, s': Stack, ids: seq<SocketId>)
    requires s'.sockets == s.sockets
    ensures Due(s', ids) == Due(s, ids)
  {
    if ids != [] { DueFrame(s, s', ids[1..]); }
  }

  /** Behind `s.out`, one packet for each of the sockets `due`, in order. */
  ghost predicate Written(s: Stack, s': Stack, due: seq<SocketId>) {
    && s.out <= s'.out && |s'.out| == |s.out| + |due|
    && forall i | 0 <= i < |due| :: due[i] in s.sockets && Repeats(s.sockets[due[i]], s'.out[|s.out| + i])
  }

  /**
   * For every list of expired timers: the round writes, in the order of the list, exactly one
   * packet for each live ESTABLISHED socket with bytes in flight and in its buffer, from its
   * address to its peer, numbered SND.UNA, with the first bytes of the send buffer, as many as
   * are in flight and fit a segment. It writes nothing for any other and changes no block.
   */
  lemma {:induction false} RoundRepeatsOldest(s: Stack, ids: seq<SocketId>)
    ensures var s' := RetransmitAll(s, ids);
      Written(s, s', Due(s, ids)) && s'.sockets == s.sockets && s'.dirty == s.dirty
    decreases |ids|
  {
    StackRuns.RetransmitAllKeepsSockets(s, ids);
    if ids != [] {
      var m := RetransmitAll(s, [ids[0]]);
      StackRuns.RetransmitAllKeepsSockets(s, [ids[0]]);
      OneTimer(s, ids[0]);
      Split(s, ids);
      RoundRepeatsOldest(m, ids[1..]);
      DueFrame(s, m, ids[1..]);
      WrittenTwice(s, m, RetransmitAll(m, ids[1..]), if IsDue(s, ids[0]) then [ids[0]] else [], Due(m, ids[1..]));
    }
  }

  lemma WrittenTwice(s: Stack, m: Stack, s': Stack, due: seq<SocketId>, due': seq<SocketId>)
    requires Written(s, m, due) && Written(m, s', due') && m.sockets == s.sockets
    ensures Written(s, s', due + due')
  {
    forall i | 0 <= i < |due + due'|
      ensures (due + due')[i] in s.sockets && Repeats(s.sockets[(due + due')[i]], s'.out[|s.out| + i])
    {
      if i < |due| {
        assert s'.out[|s.out| + i] == m.out[|s.out| + i];
      } else {
        assert (due + due')[i] == due'[i - |due|] && |s.out| + i == |m.out| + (i - |due|);
      }
    }
  }
}

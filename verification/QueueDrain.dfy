/**
 * Draining the dirty queue of a whole stack while nothing arrives: the daemon works off the
 * queue again and again, whatever sockets, duplicates and dead identifiers are in it. It comes
 * to rest with an empty queue, and every queued socket ends as if it had been drained alone.
 */
module QueueDrain {
  import opened Words
  import opened ControlBlock
  import opened StackModel
  import Drain

  // ------------------------------------------------------- the work that is left

  function Unsent(s: Stack, id: SocketId): nat {
    if Alive(s, id) && MaySendData(s.sockets[id].state) then Drain.Unsent(s.sockets[id]) else 0
  }

  /** One for each entry of the queue, and the unsent bytes behind it. */
  function Load(s: Stack, queue: seq<SocketId>): nat {
    if queue == [] then 0 else 1 + Unsent(s, queue[0]) + Load(s, queue[1..])
  }

  lemma {:induction false} LoadAppend(s: Stack, queue: seq<SocketId>, id: SocketId)
    ensures Load(s, queue + [id]) == Load(s, queue) + 1 + Unsent(s, id)
  {
    if queue == [] {
      assert ([id])[1..] == [];
    } else {
      LoadAppend(s, queue[1..], id);
      assert (queue + [id])[1..] == queue[1..] + [id];
    }
  }

  lemma {:induction false} LoadFalls(s: Stack, s': Stack, queue: seq<SocketId>)
    requires forall id :: Unsent(s', id) <= Unsent(s, id)
    ensures Load(s', queue) <= Load(s, queue)
  {
    if queue != [] {
      LoadFalls(s, s', queue[1..]);
    }
  }

  /** What `process_block_` leaves unsent; asking to be queued again has cost at least a byte. */
  lemma BlockSpends(t: Tcb)
    ensures var r := ProcessBlock(t);
      && r.tcb.state == t.state && r.effect.Keep?
      && (!MaySendData(t.state) ==> !r.dirty && r.tcb == t)
      && (MaySendData(t.state) ==> Drain.Unsent(r.tcb) + (if r.dirty then 1 else 0) <= Drain.Unsent(t))
  {
    if MaySendData(t.state) {
      Drain.DirtyMeansSent(t);
      if NextChunk(t) != [] { Drain.ProcessAdvances(t); }
    }
  }

  /** Processing one live socket changes that socket, the output and perhaps the queue. */
  lemma ProcessOneShape(s: Stack, id: SocketId)
    requires Alive(s, id)
    ensures var r := ProcessBlock(s.sockets[id]);
      ProcessOne(s, id) == s.(
        sockets := s.sockets[id := r.tcb],
        out := s.out + Addressed(r.out, r.tcb.src, r.tcb.dst),
        dirty := if r.dirty then s.dirty + [id] else s.dirty)
  {
    BlockSpends(s.sockets[id]);
  }

  lemma ProcessOneSpends(s: Stack, id: SocketId, rest: seq<SocketId>)
    ensures var m := ProcessOne(s, id);
      Load(m, m.dirty) + Load(m, rest) + 1 <= Load(s, s.dirty) + Load(s, [id] + rest)
  {
    var m := ProcessOne(s, id);
    assert ([id] + rest)[1..] == rest;
    if Alive(s, id) {
      BlockSpends(s.sockets[id]);
      ProcessOneShape(s, id);
      LoadFalls(s, m, s.dirty);
      LoadFalls(s, m, rest);
      LoadAppend(m, s.dirty, id);
    }
  }

  lemma {:induction false} ProcessAllSpends(s: Stack, ids: seq<SocketId>)
    ensures var s' := ProcessAll(s, ids); Load(s', s'.dirty) + |ids| <= Load(s, s.dirty) + Load(s, ids)
    decreases |ids|
  {
    if ids != [] {
      ProcessOneSpends(s, ids[0], ids[1..]);
      assert [ids[0]] + ids[1..] == ids;
      ProcessAllSpends(ProcessOne(s, ids[0]), ids[1..]);
    }
  }

  /** A round with a non-empty queue leaves less to do. */
  lemma RoundSpends(s: Stack)
    ensures Load(ProcessDirty(s), ProcessDirty(s).dirty) + |s.dirty| <= Load(s, s.dirty)
  {
    ProcessAllSpends(s.(dirty := []), s.dirty);
    LoadFalls(s, s.(dirty := []), s.dirty);
  }

  /** The stack when the queue runs dry. */
  ghost function Settled(s: Stack): Stack
    decreases Load(s, s.dirty)
  {
    if s.dirty == [] then s
    else
      RoundSpends(s);
      Settled(ProcessDirty(s))
  }

  // ------------------------------------------------------- what is sent on the way

  /** A written packet and the socket that wrote it. */
  datatype Entry = Entry(id: SocketId, packet: Packet)

  function Tagged(id: SocketId, t: Tcb): seq<Entry> {
    var r := ProcessBlock(t);
    var packets := Addressed(r.out, r.tcb.src, r.tcb.dst);
    seq(|packets|, i requires 0 <= i < |packets| => Entry(id, packets[i]))
  }

  function Log(s: Stack, ids: seq<SocketId>): seq<Entry>
    decreases |ids|
  {
    if ids == [] then []
    else (if Alive(s, ids[0]) then Tagged(ids[0], s.sockets[ids[0]]) else []) + Log(ProcessOne(s, ids[0]), ids[1..])
  }

  ghost function SettlingLog(s: Stack): seq<Entry>
    decreases Load(s, s.dirty)
  {
    if s.dirty == [] then []
    else
      RoundSpends(s);
      Log(s.(dirty := []), s.dirty) + SettlingLog(ProcessDirty(s))
  }

  function Packets(log: seq<Entry>): seq<Packet> {
    seq(|log|, i requires 0 <= i < |log| => log[i].packet)
  }

  /** The segments that socket `id` wrote, in order. */
  function SegmentsOf(log: seq<Entry>, id: SocketId): seq<Segment> {
    if log == [] then []
    else (if log[0].id == id then [log[0].packet.seg] else []) + SegmentsOf(log[1..], id)
  }

  lemma {:induction false} SegmentsAppend(a: seq<Entry>, b: seq<Entry>, id: SocketId)
    ensures SegmentsOf(a + b, id) == SegmentsOf(a, id) + SegmentsOf(b, id)
  {
    if a == [] {
      assert a + b == b;
    } else {
      SegmentsAppend(a[1..], b, id);
      assert (a + b)[1..] == a[1..] + b;
    }
  }

  lemma TaggedSegments(j: SocketId, t: Tcb, id: SocketId)
    ensures SegmentsOf(Tagged(j, t), id) == if j == id then ProcessBlock(t).out else []
  {
    var log, out := Tagged(j, t), ProcessBlock(t).out;
    OneSegment(t);
    if out != [] {
      assert out == [out[0]];
      assert log == [Entry(j, Packet(ProcessBlock(t).tcb.src, ProcessBlock(t).tcb.dst, out[0]))];
      assert log[1..] == [];
    }
  }

  lemma OneSegment(t: Tcb)
    ensures |ProcessBlock(t).out| <= 1
  {
  }

  lemma {:induction false} LogIsOutput(s: Stack, ids: seq<SocketId>)
    ensures ProcessAll(s, ids).out == s.out + Packets(Log(s, ids))
    decreases |ids|
  {
    if ids != [] {
      var m := ProcessOne(s, ids[0]);
      LogIsOutput(m, ids[1..]);
      if Alive(s, ids[0]) {
        ProcessOneShape(s, ids[0]);
        PacketsAppend(Tagged(ids[0], s.sockets[ids[0]]), Log(m, ids[1..]));
        assert m.out == s.out + Packets(Tagged(ids[0], s.sockets[ids[0]]));
      } else {
        assert [] + Log(m, ids[1..]) == Log(m, ids[1..]);
      }
    }
  }

  lemma PacketsAppend(a: seq<Entry>, b: seq<Entry>)
    ensures Packets(a + b) == Packets(a) + Packets(b)
  {
  }

  // ------------------------------------------------------- one socket in the crowd

  /** Socket `id` sends data, and is in the queue or the batch if it has anything to send. */
  ghost predicate Watched(s: Stack, ids: seq<SocketId>, id: SocketId) {
    && Alive(s, id) && MaySendData(s.sockets[id].state)
    && (WantsToSend(s.sockets[id]) ==> id in s.dirty || id in ids)
  }

  /** Between `t` and `t'` the segments `sent` went out; draining either ends in the same block. */
  ghost predicate OnTheWay(t: Tcb, t': Tcb, sent: seq<Segment>)
    requires MaySendData(t.state) && MaySendData(t'.state)
  {
    Drain.Drained(t) == (Drain.Drained(t').0, sent + Drain.Drained(t').1)
  }

  lemma DrainedAtRest(t: Tcb)
    requires MaySendData(t.state) && !WantsToSend(t)
    ensures Drain.Drained(t) == (t, [])
  {
    Drain.DirtyMeansSent(t);
  }

  lemma BlockOnTheWay(t: Tcb)
    requires MaySendData(t.state)
    ensures var r := ProcessBlock(t);
      MaySendData(r.tcb.state) && OnTheWay(t, r.tcb, r.out) && (WantsToSend(r.tcb) ==> r.dirty)
  {
    BlockSpends(t);
    Drain.DirtyMeansSent(t);
    var r := ProcessBlock(t);
    if !r.dirty {
      DrainedAtRest(r.tcb);
      assert r.out + [] == r.out;
    }
  }

  lemma OnTheWayChain(t: Tcb, m: Tcb, t': Tcb, sent: seq<Segment>, sent': seq<Segment>)
    requires MaySendData(t.state) && MaySendData(m.state) && MaySendData(t'.state)
    requires OnTheWay(t, m, sent) && OnTheWay(m, t', sent')
    ensures OnTheWay(t, t', sent + sent')
  {
    var last := Drain.Drained(t').1;
    assert sent + (sent' + last) == (sent + sent') + last;
  }

  lemma ProcessOneWatched(s: Stack, j: SocketId, rest: seq<SocketId>, id: SocketId)
    requires Watched(s, [j] + rest, id)
    ensures var m := ProcessOne(s, j);
      && Watched(m, rest, id)
      && OnTheWay(s.sockets[id], m.sockets[id], if j == id then ProcessBlock(s.sockets[id]).out else [])
  {
    if Alive(s, j) {
      ProcessOneShape(s, j);
    }
    if j == id {
      BlockOnTheWay(s.sockets[id]);
    } else {
      assert forall k :: k in [j] + rest <==> k == j || k in rest;
      assert [] + Drain.Drained(s.sockets[id]).1 == Drain.Drained(s.sockets[id]).1;
    }
  }

  lemma {:induction false} ProcessAllWatched(s: Stack, ids: seq<SocketId>, id: SocketId)
    requires Watched(s, ids, id)
    ensures var s' := ProcessAll(s, ids);
      Watched(s', [], id) && OnTheWay(s.sockets[id], s'.sockets[id], SegmentsOf(Log(s, ids), id))
    decreases |ids|
  {
    if ids == [] {
      assert [] + Drain.Drained(s.sockets[id]).1 == Drain.Drained(s.sockets[id]).1;
    } else {
      var m := ProcessOne(s, ids[0]);
      assert [ids[0]] + ids[1..] == ids;
      ProcessOneWatched(s, ids[0], ids[1..], id);
      ProcessAllWatched(m, ids[1..], id);
      var first := if Alive(s, ids[0]) then Tagged(ids[0], s.sockets[ids[0]]) else [];
      if Alive(s, ids[0]) { TaggedSegments(ids[0], s.sockets[ids[0]], id); }
      SegmentsAppend(first, Log(m, ids[1..]), id);
      OnTheWayChain(s.sockets[id], m.sockets[id], ProcessAll(m, ids[1..]).sockets[id],
                    SegmentsOf(first, id), SegmentsOf(Log(m, ids[1..]), id));
    }
  }

  lemma {:induction false} SettledWatched(s: Stack, id: SocketId)
    requires Watched(s, [], id)
    ensures Watched(Settled(s), [], id)
    ensures OnTheWay(s.sockets[id], Settled(s).sockets[id], SegmentsOf(SettlingLog(s), id))
    decreases Load(s, s.dirty)
  {
    if s.dirty == [] {
      assert [] + Drain.Drained(s.sockets[id]).1 == Drain.Drained(s.sockets[id]).1;
    } else {
      var m := ProcessDirty(s);
      var log := Log(s.(dirty := []), s.dirty);
      ProcessAllWatched(s.(dirty := []), s.dirty, id);
      RoundSpends(s);
      SettledWatched(m, id);
      SegmentsAppend(log, SettlingLog(m), id);
      OnTheWayChain(s.sockets[id], m.sockets[id], Settled(m).sockets[id], SegmentsOf(log, id), SegmentsOf(SettlingLog(m), id));
    }
  }

  // ------------------------------------------------------- sockets that are not queued

  lemma {:induction false} ProcessAllSpares(s: Stack, ids: seq<SocketId>, id: SocketId)
    requires id in s.sockets && id !in ids && id !in s.dirty
    ensures var s' := ProcessAll(s, ids);
      && id in s'.sockets && s'.sockets[id] == s.sockets[id] && id !in s'.dirty
      && SegmentsOf(Log(s, ids), id) == []
    decreases |ids|
  {
    if ids != [] {
      var m := ProcessOne(s, ids[0]);
      var first := if Alive(s, ids[0]) then Tagged(ids[0], s.sockets[ids[0]]) else [];
      if Alive(s, ids[0]) {
        ProcessOneShape(s, ids[0]);
        TaggedSegments(ids[0], s.sockets[ids[0]], id);
      }
      ProcessAllSpares(m, ids[1..], id);
      SegmentsAppend(first, Log(m, ids[1..]), id);
    }
  }

  lemma {:induction false} SettledSpares(s: Stack, id: SocketId)
    requires id in s.sockets && id !in s.dirty
    ensures id in Settled(s).sockets && Settled(s).sockets[id] == s.sockets[id]
    ensures SegmentsOf(SettlingLog(s), id) == []
    decreases Load(s, s.dirty)
  {
    if s.dirty != [] {
      ProcessAllSpares(s.(dirty := []), s.dirty, id);
      RoundSpends(s);
      SettledSpares(ProcessDirty(s), id);
      SegmentsAppend(Log(s.(dirty := []), s.dirty), SettlingLog(ProcessDirty(s)), id);
    }
  }

  // ------------------------------------------------------- the theorem

  /**
   * From any stack at all: working off the queue again and again, with nothing arriving, comes
   * to rest (`Settled` is total) with an empty queue.
   */
  lemma {:induction false} QueueRunsDry(s: Stack)
    ensures Settled(s).dirty == [] && Settled(s).out == s.out + Packets(SettlingLog(s))
    decreases Load(s, s.dirty)
  {
    if s.dirty == [] {
      assert s.out + [] == s.out;
    } else {
      RoundSpends(s);
      QueueRunsDry(ProcessDirty(s));
      LogIsOutput(s.(dirty := []), s.dirty);
      PacketsAppend(Log(s.(dirty := []), s.dirty), SettlingLog(ProcessDirty(s)));
    }
  }

  /**
   * And every queued socket that sends data has sent, interleaved with the others, the
   * contiguous chunks up to the smaller of its buffer and its window; a socket that was not
   * queued has sent nothing and is as it was.
   */
  lemma EverySocketDrains(s: Stack, id: SocketId)
    requires Alive(s, id)
    ensures id in Settled(s).sockets
    ensures id in s.dirty && MaySendData(s.sockets[id].state) ==>
      Drain.DrainedTo(s.sockets[id], Settled(s).sockets[id], SegmentsOf(SettlingLog(s), id))
    ensures id !in s.dirty ==>
      Settled(s).sockets[id] == s.sockets[id] && SegmentsOf(SettlingLog(s), id) == []
  {
    QueueRunsDry(s);
    if id !in s.dirty {
      SettledSpares(s, id);
    } else if MaySendData(s.sockets[id].state) {
      SettledWatched(s, id);
      DrainedAtRest(Settled(s).sockets[id]);
      Drain.DrainReachesLimit(s.sockets[id]);
      assert SegmentsOf(SettlingLog(s), id) + [] == SegmentsOf(SettlingLog(s), id);
    } else {
      SettledKeeps(s);
    }
  }

  lemma {:induction false} ProcessAllKeeps(s: Stack, ids: seq<SocketId>)
    ensures ProcessAll(s, ids).sockets.Keys == s.sockets.Keys
    decreases |ids|
  {
    if ids != [] {
      if Alive(s, ids[0]) { ProcessOneShape(s, ids[0]); }
      ProcessAllKeeps(ProcessOne(s, ids[0]), ids[1..]);
    }
  }

  lemma {:induction false} SettledKeeps(s: Stack)
    ensures Settled(s).sockets.Keys == s.sockets.Keys
    decreases Load(s, s.dirty)
  {
    if s.dirty != [] {
      ProcessAllKeeps(s.(dirty := []), s.dirty);
      RoundSpends(s);
      SettledKeeps(ProcessDirty(s));
    }
  }
}

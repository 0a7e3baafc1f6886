/**
 * Draining one dirty socket, in any state that sends data, while no acknowledgement arrives:
 * the daemon processes the block again for as long as `process_block_` puts it back into the
 * dirty queue.
 */
module Drain {
  import opened Words
  import opened ControlBlock
  import Stream

  /** One transmission moves exactly its payload from unsent to in flight, without wrapping. */
  lemma ProcessAdvances(t: Tcb)
    requires MaySendData(t.state) && NextChunk(t) != []
    ensures var t' := ProcessBlock(t).tcb;
      && t' == t.(sndNxt := Wrap(t.sndNxt + |NextChunk(t)|))
      && InFlight(t') == InFlight(t) + |NextChunk(t)| <= Min(|t.sendBuf|, t.sndWnd)
  {
    var n := |NextChunk(t)|;
    WrapPlus(t.sndNxt - t.sndUna, n);
    WrapPlus(t.sndNxt + n, 0 - t.sndUna);
    WrapSmall(InFlight(t) + n);
  }

  function Unsent(t: Tcb): nat {
    Max(|t.sendBuf| - InFlight(t), 0)
  }

  /** The block when the queue runs dry, and what was sent on the way. */
  function Drained(t: Tcb): (Tcb, seq<Segment>)
    requires MaySendData(t.state)
    decreases Unsent(t)
  {
    var r := ProcessBlock(t);
    if !r.dirty then (r.tcb, r.out)
    else
      assert Unsent(r.tcb) < Unsent(t) by { ProcessAdvances(t); }
      var rest := Drained(r.tcb);
      (rest.0, r.out + rest.1)
  }

  /** Contiguous chunks from sequence number `from`, each 1 to 1460 bytes, all but the last full. */
  ghost predicate Chunked(segs: seq<Segment>, from: int) {
    segs != [] ==>
      && 1 <= |segs[0].payload| <= MAX_SEGMENT
      && (|segs| > 1 ==> |segs[0].payload| == MAX_SEGMENT)
      && segs[0].seqNum == Wrap(from)
      && Chunked(segs[1..], from + |segs[0].payload|)
  }

  lemma DirtyMeansSent(t: Tcb)
    requires MaySendData(t.state)
    ensures var r := ProcessBlock(t);
      && (NextChunk(t) == [] ==> r == Stay(t))
      && (NextChunk(t) != [] ==> |r.out| == 1 && r.out == [DataSegment(t, NextChunk(t), t.sndNxt)])
      && (r.dirty ==> NextChunk(t) != [] && |NextChunk(t)| == MAX_SEGMENT && WantsToSend(r.tcb))
      && (NextChunk(t) != [] ==> r.dirty == WantsToSend(r.tcb))
      && (NextChunk(t) == [] <==> !WantsToSend(t))
  {
    if NextChunk(t) != [] { ProcessAdvances(t); }
  }

  ghost predicate DrainedTo(t: Tcb, t': Tcb, segs: seq<Segment>) {
    && t' == t.(sndNxt := t'.sndNxt)
    && InFlight(t') == Max(InFlight(t), Min(|t.sendBuf|, t.sndWnd))
    && !WantsToSend(t')
    && Chunked(segs, t.sndNxt)
    && (WantsToSend(t) ==> Stream.Payloads(segs) == t.sendBuf[InFlight(t)..InFlight(t')])
    && (!WantsToSend(t) ==> segs == [])
  }

  /**
   * Draining stops (`Drained` is total) with the in-flight count at the smaller of buffer size
   * and window, or where it was if that was already more; the segments are contiguous,
   * non-overlapping chunks that concatenate to the slice of the buffer newly in flight.
   */
  lemma {:induction false} DrainReachesLimit(t: Tcb)
    requires MaySendData(t.state)
    ensures DrainedTo(t, Drained(t).0, Drained(t).1)
    decreases Unsent(t)
  {
    DirtyMeansSent(t);
    var r := ProcessBlock(t);
    if NextChunk(t) != [] {
      ProcessAdvances(t);
      if r.dirty {
        DrainReachesLimit(r.tcb);
        var rest := Drained(r.tcb);
        DrainOneMore(t, r.tcb, rest.0, rest.1);
      } else {
        LastChunk(t, r.out);
        DrainLast(t, r.tcb, r.out);
      }
    }
  }

  lemma DrainLast(t: Tcb, t': Tcb, out: seq<Segment>)
    requires NextChunk(t) != [] && t' == t.(sndNxt := Wrap(t.sndNxt + |NextChunk(t)|))
    requires InFlight(t') == InFlight(t) + |NextChunk(t)| <= Min(|t.sendBuf|, t.sndWnd)
    requires !WantsToSend(t') && Chunked(out, t.sndNxt) && Stream.Payloads(out) == NextChunk(t)
    ensures DrainedTo(t, t', out)
  {
    assert NextChunk(t) == t.sendBuf[InFlight(t)..InFlight(t')];
  }

  lemma DrainOneMore(t: Tcb, mid: Tcb, end: Tcb, rest: seq<Segment>)
    requires |NextChunk(t)| == MAX_SEGMENT && mid == t.(sndNxt := Wrap(t.sndNxt + MAX_SEGMENT))
    requires InFlight(mid) == InFlight(t) + MAX_SEGMENT && WantsToSend(mid)
    requires DrainedTo(mid, end, rest)
    ensures DrainedTo(t, end, [DataSegment(t, NextChunk(t), t.sndNxt)] + rest)
  {
    Rechunk(t, [DataSegment(t, NextChunk(t), t.sndNxt)], rest);
    var i, j, k := InFlight(t), InFlight(mid), InFlight(end);
    assert NextChunk(t) == t.sendBuf[i..j];
    assert t.sendBuf[i..j] + t.sendBuf[j..k] == t.sendBuf[i..k];
  }

  lemma LastChunk(t: Tcb, out: seq<Segment>)
    requires NextChunk(t) != [] && out == [DataSegment(t, NextChunk(t), t.sndNxt)]
    ensures Chunked(out, t.sndNxt) && Stream.Payloads(out) == NextChunk(t)
  {
    assert out[1..] == [];
    WrapSmall(t.sndNxt);
  }

  lemma Rechunk(t: Tcb, out: seq<Segment>, rest: seq<Segment>)
    requires |NextChunk(t)| == MAX_SEGMENT && out == [DataSegment(t, NextChunk(t), t.sndNxt)]
    requires Chunked(rest, Wrap(t.sndNxt + MAX_SEGMENT))
    ensures Chunked(out + rest, t.sndNxt)
    ensures Stream.Payloads(out + rest) == NextChunk(t) + Stream.Payloads(rest)
  {
    assert (out + rest)[1..] == rest;
    WrapSmall(t.sndNxt);
    ChunkedModulo(rest, Wrap(t.sndNxt + MAX_SEGMENT), t.sndNxt + MAX_SEGMENT);
  }

  lemma {:induction false} ChunkedModulo(segs: seq<Segment>, from: int, from': int)
    requires Chunked(segs, from) && Wrap(from) == Wrap(from')
    ensures Chunked(segs, from')
  {
    if segs != [] {
      var n := |segs[0].payload|;
      WrapPlus(from, n);
      WrapPlus(from', n);
      ChunkedModulo(segs[1..], from + n, from' + n);
    }
  }
}

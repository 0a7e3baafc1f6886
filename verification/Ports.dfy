/** Allocation of ephemeral ports: the probe loop over a wrapping 16-bit counter. */
module Ports {
  import opened Words

  const FIRST: u16 := 49152
  const PROBES: nat := 16384

  /** The port returned and the counter afterwards. */
  datatype Allocation = Allocation(port: u16, next: u16)

  predicate Restart(candidate: u16) {
    candidate >= 65535 || candidate < FIRST
  }

  function Increment(next: u16): u16 {
    (next + 1) % 0x1_0000
  }

  /** `tries` probes from counter `next`, then the unconditional fallback. */
  function Probe(bound: set<u16>, next: u16, tries: nat): Allocation
    decreases tries
  {
    if tries == 0 then
      Allocation(next, Increment(next))
    else
      var candidate := if Restart(next) then FIRST else next;
      var next' := if Restart(next) then FIRST else Increment(next);
      if candidate !in bound then Allocation(candidate, next') else Probe(bound, next', tries - 1)
  }

  /** A bound port below the wrap is passed over. */
  lemma PassBound(bound: set<u16>, next: u16, tries: nat)
    requires FIRST <= next < 65535 && next in bound
    ensures Probe(bound, next, tries + 1) == Probe(bound, next + 1, tries)
  {
    assert Increment(next) == next + 1;
  }

  lemma {:induction false} SkipBound(bound: set<u16>, next: u16, k: nat, tries: nat)
    requires FIRST <= next && next + k <= 65535
    requires forall p: u16 | next <= p < next + k :: p in bound
    ensures Probe(bound, next, k + tries) == Probe(bound, next + k, tries)
    decreases k
  {
    if k > 0 {
      PassBound(bound, next, k - 1 + tries);
      SkipBound(bound, next + 1, k - 1, tries);
    }
  }

  /** A free port ahead of the counter and within reach ends the search successfully. */
  lemma {:induction false} FindsAhead(bound: set<u16>, next: u16, tries: nat, free: u16)
    requires FIRST <= next <= free < 65535 && free - next < tries
    requires free !in bound
    ensures var r := Probe(bound, next, tries); FIRST <= r.port < 65535 && r.port !in bound
    decreases tries
  {
    if next in bound {
      FindsAhead(bound, next + 1, tries - 1, free);
    }
  }

  /**
   * Although the first port is tried twice at the wrap, 16384 probes reach every port of the
   * range 49152..65534.
   */
  lemma ProbeIsExhaustive(bound: set<u16>, next: u16, free: u16)
    requires FIRST <= free < 65535 && free !in bound
    ensures var r := Probe(bound, next, PROBES); FIRST <= r.port < 65535 && r.port !in bound
  {
    if Restart(next) {
      AfterRestart(bound, next, PROBES, free);
    } else if q: u16 :| next <= q < 65535 && q !in bound {
      FindsAhead(bound, next, PROBES, q);
    } else {
      SkipBound(bound, next, 65535 - next, PROBES - (65535 - next));
      AfterRestart(bound, 65535, PROBES - (65535 - next), free);
    }
  }

  lemma AfterRestart(bound: set<u16>, next: u16, tries: nat, free: u16)
    requires Restart(next) && FIRST <= free < 65535 && free !in bound
    requires free - FIRST + 1 < tries || (free == FIRST && tries > 0)
    ensures var r := Probe(bound, next, tries); FIRST <= r.port < 65535 && r.port !in bound
  {
    if FIRST in bound {
      FindsAhead(bound, FIRST, tries - 1, free);
    }
  }

  /** The result stays in 49152..65535; the counter, in 49152..65535 or just wrapped to 0. */
  lemma {:induction false} ProbeStaysInRange(bound: set<u16>, next: u16, tries: nat)
    requires tries == 0 ==> FIRST <= next
    ensures var r := Probe(bound, next, tries); FIRST <= r.port && (FIRST <= r.next || r.next == 0)
    decreases tries
  {
    if tries > 0 {
      ProbeStaysInRange(bound, if Restart(next) then FIRST else Increment(next), tries - 1);
    }
  }

  // ------------------------------------------------------- which port, and where the counter ends

  /** `c` is the lowest port of the range, from `from` on, that is not bound. */
  ghost predicate FirstFree(bound: set<u16>, from: int, c: int) {
    from <= c < 65535 && FIRST <= c && c !in bound && forall q: u16 | from <= q < c :: q in bound
  }

  ghost predicate AllBound(bound: set<u16>, from: int) {
    forall q: u16 | from <= q < 65535 :: q in bound
  }

  /** The probes meet the wrap before any free port. */
  ghost predicate AtWrap(bound: set<u16>, next: u16) {
    Restart(next) || AllBound(bound, next)
  }

  /** A port found ahead of the counter leaves the counter just past it. */
  lemma {:induction false} FindsFirst(bound: set<u16>, next: u16, tries: nat, c: u16)
    requires FIRST <= next && FirstFree(bound, next, c) && c - next < tries
    ensures Probe(bound, next, tries) == Allocation(c, c + 1)
  {
    SkipBound(bound, next, c - next, tries - (c - next));
    assert Increment(c) == c + 1;
  }

  /** Up to the wrap, and over it, when everything on the way is bound. */
  lemma ReachesWrap(bound: set<u16>, next: u16, tries: nat)
    requires AtWrap(bound, next) && FIRST in bound
    requires Restart(next) ==> tries >= 1
    requires !Restart(next) ==> tries >= 65536 - next
    ensures Probe(bound, next, tries) == Probe(bound, FIRST, tries - (if Restart(next) then 1 else 65536 - next))
  {
    if !Restart(next) {
      SkipBound(bound, next, 65535 - next, tries - (65535 - next));
    }
  }

  /** With nothing free, the counter goes once round the range. */
  lemma NothingFree(bound: set<u16>, next: u16)
    requires AllBound(bound, FIRST)
    ensures Probe(bound, next, PROBES) == if Restart(next) then Allocation(65535, 0) else Allocation(next, next + 1)
  {
    var end: u16 := if Restart(next) then 65535 else next;
    ReachesWrap(bound, next, PROBES);
    RunsOut(bound, end, PROBES - (if Restart(next) then 1 else 65536 - next));
  }

  /** The last probe falls short of `end`, which is handed out unchecked. */
  lemma RunsOut(bound: set<u16>, end: u16, tries: nat)
    requires AllBound(bound, FIRST) && FIRST <= end && tries == end - FIRST
    ensures Probe(bound, FIRST, tries) == Allocation(end, Increment(end))
  {
    SkipBound(bound, FIRST, tries, 0);
    assert Probe(bound, end, 0) == Allocation(end, Increment(end));
  }

  /**
   * The whole result, for every counter and every bound set: the first free port at or after
   * the counter, with the counter left just past it; when there is none up to the wrap, the
   * lowest port if it is free, with the counter left on it; otherwise the lowest free port; and
   * the counter itself when nothing is free.
   */
  lemma ProbeResult(bound: set<u16>, next: u16, c: u16)
    ensures !Restart(next) && FirstFree(bound, next, c) ==> Probe(bound, next, PROBES) == Allocation(c, c + 1)
    ensures AtWrap(bound, next) && FIRST !in bound ==> Probe(bound, next, PROBES) == Allocation(FIRST, FIRST)
    ensures AtWrap(bound, next) && FIRST in bound && FirstFree(bound, FIRST, c) ==>
      Probe(bound, next, PROBES) == Allocation(c, c + 1)
    ensures AllBound(bound, FIRST) ==>
      Probe(bound, next, PROBES) == if Restart(next) then Allocation(65535, 0) else Allocation(next, next + 1)
  {
    if !Restart(next) && FirstFree(bound, next, c) { FindsFirst(bound, next, PROBES, c); }
    if AtWrap(bound, next) {
      if FIRST !in bound {
        WrapsToFirst(bound, next);
      } else if FirstFree(bound, FIRST, c) {
        assert !Restart(next) ==> c < next;
        ReachesWrap(bound, next, PROBES);
        FindsFirst(bound, FIRST, PROBES - (if Restart(next) then 1 else 65536 - next), c);
      }
    }
    if AllBound(bound, FIRST) { NothingFree(bound, next); }
  }

  lemma WrapsToFirst(bound: set<u16>, next: u16)
    requires AtWrap(bound, next) && FIRST !in bound
    ensures Probe(bound, next, PROBES) == Allocation(FIRST, FIRST)
  {
    if !Restart(next) {
      SkipBound(bound, next, 65535 - next, PROBES - (65535 - next));
    }
  }

  lemma {:induction false} FirstFreeExists(bound: set<u16>, from: u16) returns (c: u16)
    requires FIRST <= from && !AllBound(bound, from)
    ensures FirstFree(bound, from, c)
    decreases 65535 - from
  {
    if from !in bound {
      c := from;
    } else {
      c := FirstFreeExists(bound, from + 1);
    }
  }

  /** At least two free ports in the range. */
  ghost predicate TwoFree(bound: set<u16>) {
    exists p: u16, q: u16 :: FIRST <= p < q < 65535 && p !in bound && q !in bound
  }

  /**
   * When two allocations in a row over the same bound set differ: there are two free ports, and
   * the first allocation does not take the lowest one at the wrap, where the counter stays on
   * it; or nothing is free and the counter, which is then handed out itself, is in the range.
   */
  lemma SuccessiveDifferExactlyWhen(bound: set<u16>, next: u16)
    ensures var first := Probe(bound, next, PROBES);
      var second := Probe(bound, first.next, PROBES);
      second.port != first.port <==>
        if AllBound(bound, FIRST) then !Restart(next)
        else TwoFree(bound) && !(AtWrap(bound, next) && FIRST !in bound)
  {
    if AllBound(bound, FIRST) {
      NothingFree(bound, next);
      NothingFree(bound, Probe(bound, next, PROBES).next);
    } else if AtWrap(bound, next) && FIRST !in bound {
      WrapsToFirst(bound, next);
      FindsFirst(bound, FIRST, PROBES, FIRST);
    } else {
      var from := if AtWrap(bound, next) then FIRST else next;
      var c := FirstFreeExists(bound, from);
      ProbeResult(bound, next, c);
      assert Probe(bound, next, PROBES) == Allocation(c, c + 1);
      AfterFound(bound, c);
      if TwoFree(bound) {
        var p: u16, q: u16 :| FIRST <= p < q < 65535 && p !in bound && q !in bound;
      }
    }
  }

  /** From just past a free port, the next allocation gives the same port exactly when it is the only one. */
  lemma AfterFound(bound: set<u16>, c: u16)
    requires FIRST <= c < 65535 && c !in bound
    ensures Probe(bound, c + 1, PROBES).port != c <==> TwoFree(bound)
  {
    if !AtWrap(bound, c + 1) {
      var d := FirstFreeExists(bound, c + 1);
      ProbeResult(bound, c + 1, d);
    } else if FIRST !in bound {
      WrapsToFirst(bound, c + 1);
    } else {
      var d := FirstFreeExists(bound, FIRST);
      ProbeResult(bound, c + 1, d);
    }
  }

  /** `allocate_ephemeral_port`, run sequentially; `bound` answers `listener_table_.contains`. */
  method AllocateEphemeralPort(bound: set<u16>, next: u16) returns (r: Allocation)
    ensures r == Probe(bound, next, PROBES)
    ensures FIRST <= r.port && (FIRST <= r.next || r.next == 0)
    ensures (exists p: u16 :: FIRST <= p < 65535 && p !in bound) ==> r.port !in bound
  {
    var counter := next;
    var i := 0;
    ghost var expected := Probe(bound, next, PROBES);
    ProbeStaysInRange(bound, next, PROBES);
    if p: u16 :| FIRST <= p < 65535 && p !in bound {
      ProbeIsExhaustive(bound, next, p);
    }
    while i < PROBES
      invariant 0 <= i <= PROBES
      invariant Probe(bound, counter, PROBES - i) == expected
    {
      var candidate := counter;
      counter := Increment(counter);
      if Restart(candidate) {
        counter := FIRST;
        candidate := FIRST;
      }
      if candidate !in bound {
        return Allocation(candidate, counter);
      }
      i := i + 1;
    }
    r := Allocation(counter, Increment(counter));
  }
}

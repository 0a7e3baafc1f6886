/**
 * The plain queue that the ring buffer stands for: a sequence bounded by a capacity, with a
 * flag that releases waiting readers and writers. Each operation is stated on the sequence.
 */
module ByteQueue {
  import opened Words

  /** What a write takes of `data` when the queue holds `q`. */
  function Accepted<T>(q: seq<T>, data: seq<T>, capacity: nat): seq<T>
    requires |q| <= capacity
  {
    data[..Min(|data|, capacity - |q|)]
  }

  /** At most `limit` elements, starting `offset` elements into the queue. */
  function Slice<T>(q: seq<T>, limit: nat, offset: nat): seq<T> {
    if offset >= |q| then [] else q[offset..offset + Min(limit, |q| - offset)]
  }

  function Drop<T>(q: seq<T>, count: nat): seq<T> {
    q[Min(count, |q|)..]
  }

  // ------------------------------------------------------- whole runs

  datatype Queue<T> = Queue(contents: seq<T>, woken: bool)

  datatype Op<T> =
    | Write(data: seq<T>)
    | Read(limit: nat)
    | TryRead(limit: nat)
    | Discard(count: nat)
    | ForceWakeUp

  /** The call returns; a full or empty queue makes write or read wait until it is woken. */
  predicate Returns<T>(s: Queue<T>, op: Op<T>, capacity: nat) {
    match op
    case Write(_) => |s.contents| < capacity || s.woken
    case Read(_) => |s.contents| > 0 || s.woken
    case _ => true
  }

  /** What the call adds at the back. */
  function Added<T>(s: Queue<T>, op: Op<T>, capacity: nat): seq<T>
    requires |s.contents| <= capacity
  {
    if op.Write? then Accepted(s.contents, op.data, capacity) else []
  }

  /** What the call takes off the front. */
  function Removed<T>(s: Queue<T>, op: Op<T>): seq<T> {
    match op
    case Read(limit) => Slice(s.contents, limit, 0)
    case TryRead(limit) => Slice(s.contents, limit, 0)
    case Discard(count) => Slice(s.contents, count, 0)
    case _ => []
  }

  function Next<T>(s: Queue<T>, op: Op<T>, capacity: nat): Queue<T>
    requires |s.contents| <= capacity
  {
    match op
    case Write(data) => s.(contents := s.contents + Accepted(s.contents, data, capacity))
    case Read(limit) => s.(contents := Drop(s.contents, limit))
    case TryRead(limit) => s.(contents := Drop(s.contents, limit))
    case Discard(count) => s.(contents := Drop(s.contents, count))
    case ForceWakeUp => s.(woken := true)
  }

  /** Contents, everything accepted and everything removed after a run; waiting calls are skipped. */
  function Run<T>(s: Queue<T>, ops: seq<Op<T>>, capacity: nat): (r: (Queue<T>, seq<T>, seq<T>))
    requires |s.contents| <= capacity
    ensures |r.0.contents| <= capacity
    decreases |ops|
  {
    if ops == [] then (s, [], [])
    else if !Returns(s, ops[0], capacity) then Run(s, ops[1..], capacity)
    else
      var rest := Run(Next(s, ops[0], capacity), ops[1..], capacity);
      (rest.0, Added(s, ops[0], capacity) + rest.1, Removed(s, ops[0]) + rest.2)
  }

  /** One call splits or extends the contents without loss. */
  lemma StepConserves<T>(s: Queue<T>, op: Op<T>, capacity: nat)
    requires |s.contents| <= capacity
    ensures s.contents + Added(s, op, capacity) == Removed(s, op) + Next(s, op, capacity).contents
  {
  }

  /** Two conservation equations in a row make one. */
  lemma Chain<T>(q: seq<T>, add: seq<T>, rem: seq<T>, m: seq<T>, add': seq<T>, rem': seq<T>, q': seq<T>)
    requires q + add == rem + m && m + add' == rem' + q'
    ensures q + (add + add') == (rem + rem') + q'
  {
    assert q + (add + add') == (q + add) + add' == rem + (m + add');
    assert rem + (rem' + q') == (rem + rem') + q';
  }

  /** Over a whole run: what was there and what was accepted is what was removed and what is left. */
  lemma {:induction false} RunConserves<T>(s: Queue<T>, ops: seq<Op<T>>, capacity: nat)
    requires |s.contents| <= capacity
    ensures var (s', accepted, removed) := Run(s, ops, capacity); s.contents + accepted == removed + s'.contents
    decreases |ops|
  {
    if ops != [] {
      if Returns(s, ops[0], capacity) {
        var m := Next(s, ops[0], capacity);
        StepConserves(s, ops[0], capacity);
        RunConserves(m, ops[1..], capacity);
        var rest := Run(m, ops[1..], capacity);
        Chain(s.contents, Added(s, ops[0], capacity), Removed(s, ops[0]), m.contents, rest.1, rest.2, rest.0.contents);
      } else {
        RunConserves(s, ops[1..], capacity);
      }
    }
  }

  /** A returning read with room for data gets nothing exactly when nothing is left, woken or not. */
  lemma EmptyReadMeansDrained<T>(s: Queue<T>, limit: nat, capacity: nat)
    requires Returns(s, Read(limit), capacity) && limit > 0
    ensures Removed(s, Read(limit)) == [] <==> s.contents == []
    ensures s.contents == [] ==> s.woken
  {
  }
}

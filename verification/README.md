# TinyCP in Dafny

A model of TinyCP, a userspace TCP stack, with machine-checked proofs about it. The model
covers the per-connection state machine and sliding window (`TcpStack.cpp`), the control block
and its ring buffers, the user calls, the socket, listener and connection tables, ephemeral
ports, the IPv4 and TCP wire format and the Internet checksum.

`dafny verify dfyconfig.toml` checks the project.

## How it is built

- `ControlBlock.dfy` has one function per handler, on values: control block and segment in,
  control block, written segments and requests to the rest of the stack out. One call is one
  atomic step. `uint32_t` arithmetic is written out as arithmetic modulo 2^32.
- The theorems about connections compose these functions into systems of two ends and two
  channels: `Stream` (data transfer), `HalfClose` (closing in the middle of one), `Teardown`
  (closing both ways), `Handshake` (opening over a network that loses, duplicates and reorders),
  `Opening` and `WholeLife` (how the phases join). `Sender` shows that the 32-bit sender refines
  an unbounded one from the handshake to whatever follows a close; `CloseFlush` uses it for what
  a close does to unsent data, `FinAck` for when the FIN counts as acknowledged. `Replies`,
  `Resets` and `Drain` are about one block and any segment.
- `StackModel.dfy` puts the blocks behind tables, dirty queue and output. `StackRuns` and
  `Identities` are about every run of it, so are `Accepting` (the order in which children are
  handed out) and `EndOfStream` (who is released from waiting). `QueueDrain` is about working off
  the whole dirty queue, `Timers` about a round of retransmissions, `ActiveOpen`, `Serving` and
  `UserCalls` about what the calls of an application achieve, `OldDuplicate` about Figure 9 of
  RFC 793, `Routing` about what a delivery and a teardown do to the tables, `Ports` about
  ephemeral ports.
- `Ring`, `Connection`, `Tables`, `TcpStack` and `Packets` are the mutable objects of the
  program: the circular array, the control block record over two rings, the tables, the stack,
  the packed headers and output buffers. Their methods are proved to take the object from one
  value of the model to the next. The control block record and the stack are two separate
  objects: the stack object keeps its control blocks as values, not as such records, so the
  theorems about one block carry over to the record and those about stacks to the stack object.
  `Checksum` has the summing and folding loops.
- `Wire` and `WireDelivery` relate segments to octets. `TwoStacks` puts two whole stacks at the
  ends of two channels of octets and carries the stream theorem over to them.

## Hypotheses

The handlers are modelled as written, so the theorems say what they need:

- `Stream`, `TwoStacks`, `Teardown` and `Opening` use lossless FIFO channels, because payload is
  accepted without comparing SEQ with RCV.NXT (`TcpStack.cpp:484-486`). With loss, the
  sender-side alignment of `Sender.EveryRunIsAligned` holds, for acknowledgements at most SND.NXT
  and at most 2^31 behind SND.UNA. For any acknowledgement whatever,
  `Sender.AckAdvancesExactlyWhen` and `Sender.InFlightSurvivesExactlyWhen` say what it does.
- `Handshake` covers one incarnation. A child of a listener that was reset in SYN_RECEIVED and
  freed would be replaced by a new child on another SYN; that step starts a new incarnation.
  Closes are admitted in every state, with one exclusion: of an end that has not taken over its
  peer's number and whose RCV.NXT happens to be the number after it. `Handshake.MistakenAck`
  shows why; `Handshake.SafeRunIsUnmistakable` shows that no run needs the exclusion when no
  block starts with that RCV.NXT.
- `Teardown` starts from two ends with empty send buffers and nothing in flight, and has them on
  separate stacks; `HalfClose` and `CloseFlush` are about a close at any other time.
- `TwoStacks` has the two ends on separate stacks, and the connection has its socket, route and
  pair of addresses to itself there; its socket is not also a listener. What happens elsewhere on
  the hosts is arbitrary, but for aborts over a stale route that would erase the route of the
  connection.
- `StackRuns.NoLostWakeup` expects applications to send only after the handshake and to connect
  sockets that hold no data; `StackRuns.EarlySendLosesWakeup` shows what happens otherwise. In
  CLOSE_WAIT a wake-up can be lost even so; `StackRuns.ClosingWakeupLostExactlyWhen` says when.
  `StackRuns.StatesOnlyRise` is about sockets that no user call takes to a lower state;
  `StackRuns.FallsExactlyWhenLowered` says which calls do. Incoming segments are arbitrary.
  `Identities` expects nothing.
- `EndOfStream` expects a socket that has been closed not to be opened again, because nothing
  makes its buffers wait again.
- `ActiveOpen.BothReachableExactlyWhen` and `Serving` start from a stack whose routes lead to
  identifiers that have been issued, which `Identities.RunKeepsRoutes` shows of every reachable
  one.
- `CloseFlush.SkippedByteIsNeverSent` excludes closing a socket again that is already CLOSED;
  `CloseFlush.RecloseSendsByte` shows why.

## Where code and documentation differ

- `TcpStack.h:149-150` documents `destroy_connection(remote, local)` as freeing the connection;
  every teardown passes (local, remote). `Routing.TeardownFreesOppositeRoute` and
  `Routing.CloseFreesOppositeRoute` state the effect.
- The repository's README promises checksum validation by the packet views; parsing does not
  look at checksums (`TcpStack.cpp:580-588`). `WireDelivery.WrongChecksumsAreAccepted` accepts
  every packet with both checksum words replaced by anything, and says exactly which
  replacements would have shown.
- Comments at `TcpStack.cpp:221` and `TcpStack.cpp:230` promise to flush all unsent data before
  the FIN; at most one segment is flushed, from ESTABLISHED and from CLOSE_WAIT alike.
  `CloseFlush.CloseCutsStream` is an input for which the promise fails in either state, and
  `CloseFlush.FinEndsStreamExactlyWhen` the exact condition.
- Section 3.4 of RFC 793 has the reset for a segment without ACK acknowledge all that the segment
  occupied; `TcpStack.cpp:312` leaves a FIN out of the count (`Resets.ResetNumbers`).
- `TransmissionControlBlock.h:142` sets LAST_ACK on close from every state but ESTABLISHED. This
  breaks the order of states exactly from FIN_WAIT_2, CLOSING and CLOSED (`Lifecycle.CloseKeeps`).

## Model

| member | source | states |
|---|---|---|
| `Sender.InFlightIsTrue` | TcpStack.cpp:65-93 | from the handshake on, `SND.NXT - SND.UNA` on 32 bits is the true distance, at most a full buffer while ESTABLISHED and one more after a FIN, or out of reach of the buffer if SND.NXT lies behind; the queueing condition is the unbounded one |
| `Sender.SimulateSend` | TcpSocket.cpp:108-116 | `send` extends the unbounded stream by exactly the bytes that fit |
| `Sender.SimulateProcess` | TcpStack.cpp:56-96 | in each of the four states that send data, one transmission emits the next stream slice allowed by window, segment size and data, numbered by its stream position, and advances SND.NXT by it |
| `Sender.SimulateRetransmit` | TcpStack.cpp:113-139 | a timeout changes no sequence variable and repeats only bytes between SND.UNA and SND.NXT, starting at SND.UNA |
| `Sender.SimulateAck` | TcpStack.cpp:461-468 | for every acknowledgement at most SND.NXT and at most 2^31 behind SND.UNA, the signed 32-bit test takes the decision of the unbounded comparison and frees exactly the acknowledged bytes |
| `Sender.AckAdvancesExactlyWhen` | TcpStack.cpp:462-466 | for any acknowledged position at all, SND.UNA moves if and only if the distance modulo 2^32 is strictly between 0 and 2^31 |
| `Sender.InFlightSurvivesExactlyWhen` | TcpStack.cpp:463-477 | an acknowledgement above SND.NXT is not rejected: for any acknowledged position at all, the in-flight count stays within a buffer if and only if the distance modulo 2^32 from SND.UNA is not between what is in flight and 2^31 |
| `Sender.SimulateFin` | TcpStack.cpp:442-458 | a FIN with an old or current acknowledgement leaves a CLOSE_WAIT sender that stands at the acknowledged position |
| `Sender.FinLeavesWorkExactlyWhen` | TcpStack.cpp:442-458 | a FIN queues nothing; it leaves something to send in CLOSE_WAIT if and only if the acknowledged position has unsent data after it and an open window |
| `Sender.SimulateClose` | TcpStack.cpp:220-237 | a close from ESTABLISHED or CLOSE_WAIT sends what one transmission sends, then a FIN numbered by the position reached, and stands one past it |
| `Sender.SimulateStep` | TcpStack.cpp:438-578 | every event after the handshake (write, read, close, transmission, timeout, any admissible arrival, FINs included) is a step of the unbounded sender and emits only aligned segments |
| `Sender.EveryRunIsAligned` | TcpStack.cpp:45-139 | for every run after the handshake, through FINs, closes and what follows them, with loss, duplication and reordering, every data segment ever emitted carries exactly the stream bytes that its SEQ names, and the 32-bit block ends where the unbounded sender ends |
| `CloseFlush.FinEndsStreamExactlyWhen` | TcpStack.cpp:220-237 | from ESTABLISHED and from CLOSE_WAIT, the FIN is numbered just past the last written byte if and only if the unsent rest fits one segment and the window |
| `CloseFlush.FinEndsRunExactlyWhen` | TcpStack.cpp:213-237 | the same after every run that ends in one of these states, for all that was ever written |
| `CloseFlush.CloseCutsStream` | TcpStack.cpp:230-237 | with one byte more than a segment unsent the FIN comes early, in either state |
| `CloseFlush.AfterClose` | TcpStack.cpp:220-237 | after close the block stands one past the FIN with send buffer and window untouched, so the FIN counts as one byte of the in-flight offset |
| `CloseFlush.ByteUnderFinIsSkipped` | TcpStack.cpp:213-237 | from a close on, in every run of writes, reads, timeouts, transmissions, arbitrary arrivals and further closes of a socket that is not yet CLOSED, no segment carries the stream byte under the number of the FIN |
| `CloseFlush.SkippedByteIsNeverSent` | TcpStack.cpp:45-243 | in the whole life of a connection, FINs of the peer included, that is closed when one segment did not suffice, the FIN has the number of an application byte: no segment before or after the close carries it if SND.NXT had never been past it, and one before the close did if it had |
| `CloseFlush.TransferPeaks` | TcpStack.cpp:438-492 | without a FIN of the peer SND.NXT never moves back, so that byte is never sent |
| `CloseFlush.RecloseSendsByte` | TcpStack.cpp:238-242 | unless the peer's FIN moves SND.NXT back and the CLOSED socket is closed again: then the daemon sends that byte |
| `HalfClose.CloseAwaits` | TcpStack.cpp:213-237 | a close in any state of a data transfer puts the FIN behind exactly the bytes before its number |
| `HalfClose.ShutReceivesNothing` | TcpStack.cpp:494-578 | after its own close a side stores no payload in any state |
| `HalfClose.CloseDeliversStream` | TcpStack.cpp:438-492 | however both sides go on after a close in mid-transfer, B's own close included: B ends up with exactly the data segments delivered before its own close, so it has the bytes before the FIN's number if and only if no payload was left undelivered then, and these are the whole stream if and only if one segment sufficed; if B does not close, it enters CLOSE_WAIT with the delivery of the FIN and not before, and acknowledges the FIN |
| `HalfClose.ReceiveWakes` | TcpStack.cpp:454-455 | a segment releases a reader if and only if it is a FIN in ESTABLISHED |
| `HalfClose.EndOfFile` | TcpSocket.cpp:118-129 | from a synchronised pair on, after A's close and however both go on: `recv` with a positive limit returns without bytes exactly when the FIN has been taken in (or B has closed) and every byte that arrived has been read; if B does not close, these are all bytes before the FIN |
| `EndOfStream.EndOfStreamExactlyWhen` | TcpSocket.cpp:118-129 | in every state of every run of a stack: after a FIN was taken in or the socket was closed `recv` always returns, before that never without bytes, and `send` never on a full buffer |
| `FinAck.FinAckRecognizedExactlyWhen` | TcpStack.cpp:494-578 | the acknowledgement of the FIN is recognized in FIN_WAIT_1, CLOSING and LAST_ACK if and only if no data went out since; otherwise it changes nothing |
| `FinAck.CloseAcknowledgedExactlyWhen` | TcpStack.cpp:213-237 | whatever the daemon and the timer do after a close, the acknowledgement of the FIN will be recognized, if and only if the close left nothing to send behind the FIN; one segment that suffices is enough |
| `Stream.StreamIsConserved` | TcpStack.cpp:438-492 | in every interleaving over lossless FIFO channels, both ways: read ++ receive buffer ++ payloads in flight ++ unsent tail is exactly what the peer wrote, so each side reads a prefix of the other's stream |
| `Stream.DeliveriesAlwaysFit` | TcpStack.cpp:483-490 | in every state of every such run the next payload fits the free space: it is stored whole and the daemon does not block |
| `Stream.RunKeepsInv` | TcpStack.cpp:45-96 | sequence numbers, payload order, acknowledgements and window edges of both directions stay consistent along every run |
| `Stream.HeadFits` | TcpStack.cpp:36-37 | what is on the wire never passes the right edge RCV.NXT + free space that the receiver offers |
| `Stream.TransmitKeepsFlow` | TcpStack.cpp:64-95 | a transmission keeps the bytes on the wire equal to the stream between RCV.NXT and SND.NXT and SND.NXT within the offered window |
| `Stream.DeliverKeepsFlow` | TcpStack.cpp:461-481 | taking in the oldest acknowledgement keeps SND.UNA behind and the window edge ahead of everything sent |
| `Stream.DeliverKeepsReverse` | TcpStack.cpp:484-489 | taking in the oldest payload keeps RCV.NXT equal to the bytes arrived, and the acknowledgement sent back never moves the window edge left |
| `Stream.WriteKeepsFlow` | TcpSocket.cpp:112 | an application write keeps the sender aligned with the longer stream |
| `Stream.ReadKeepsFlow` | TcpSocket.cpp:122 | an application read moves the offered edge right and keeps the flow |
| `Stream.DeliverEffect` | TcpStack.cpp:484-489 | a payload that fits is appended whole, RCV.NXT advances by its length and exactly one pure ACK answers it |
| `Stream.PayloadStoredExactlyWhen` | TcpStack.cpp:484-486 | for any segment, the payload is stored whole if and only if it fits, RCV.NXT counts it all the same, and the daemon blocks if and only if the buffer is full and not woken |
| `Stream.AcksAppend` | TcpStack.cpp:280-281 | appending the newest acknowledgement keeps acknowledged positions and window edges on the channel in order |
| `Drain.ProcessAdvances` | TcpStack.cpp:56-92 | in every state that sends data a transmission moves exactly its payload into flight, never past buffer or window, without wrap-around |
| `Drain.DirtyMeansSent` | TcpStack.cpp:69-95 | a block is queued again only after a full-size segment, exactly when it still has unsent data and window; nothing is sent exactly when there is nothing to send |
| `Replies.TurnWritesExactly` | TcpStack.cpp:51-79 | a turn of the daemon writes the SYN in SYN_SENT, one data segment in the four sending states if there is anything to send, and nothing otherwise |
| `Drain.DrainReachesLimit` | TcpStack.cpp:45-96 | processing one block again for as long as it asks for it terminates at min(buffer, window), or where it was if already more, with contiguous non-overlapping chunks of 1 to 1460 bytes, all but the last full, that concatenate to the newly in-flight slice |
| `QueueDrain.RoundSpends` | TcpStack.cpp:98-111 | a round over a non-empty dirty queue, duplicates and dead identifiers included, leaves fewer queue entries and unsent bytes together |
| `QueueDrain.QueueRunsDry` | TcpStack.cpp:98-111 | from any stack, with nothing arriving, round after round ends with an empty dirty queue |
| `QueueDrain.EverySocketDrains` | TcpStack.cpp:45-111 | every queued socket that sends data has then written, interleaved with the others, exactly the chunks of draining it alone, up to min(buffer, window); a socket that was not queued has written nothing and is unchanged |
| `Teardown.CloseKeepsInv` | TcpStack.cpp:213-237 | a close from ESTABLISHED or CLOSE_WAIT puts exactly one FIN, numbered at the end of the stream, behind what is pending |
| `Teardown.DeliverFinKeepsInv` | TcpStack.cpp:442-458 | the delivery of a FIN, in any state it can meet, moves to the matching state and owes exactly one ACK |
| `Teardown.DeliverAckKeepsInv` | TcpStack.cpp:494-578 | the delivery of the ACK of a FIN, in any state it can meet, moves to FIN_WAIT_2 or CLOSED |
| `Teardown.RunSpends` | TcpStack.cpp:494-550 | each effective close or delivery of a run spends potential, so runs of them are bounded |
| `Teardown.FinishedIsClosed` | TcpStack.cpp:552-578 | no open side and empty channels if and only if both ends are CLOSED |
| `Teardown.TeardownCompletes` | TcpStack.cpp:213-243 | from two quiescent ends in every interleaving (Figures 13 and 14, section 3.5 of RFC 793): at most six effective steps, finished if and only if both are CLOSED, and no reset is ever emitted |
| `Handshake.SynSentOk` | TcpStack.cpp:346-393 | whatever consistent segment arrives in SYN_SENT, the block and everything it emits agree with both initial sequence numbers |
| `Handshake.SynReceivedOk` | TcpStack.cpp:395-436 | the same for SYN_RECEIVED |
| `Handshake.LaterOk` | TcpStack.cpp:438-578 | no later handler changes ISS or IRS, and no later reply is a SYN |
| `Handshake.AcceptOk` | TcpStack.cpp:580-636 | a delivery to an idle, listening, live or reset end keeps every segment ever sent consistent with what its sender knows |
| `Handshake.EntryAgrees` | TcpStack.cpp:358-436 | only a delivery establishes an end, and it leaves IRS, RCV.NXT, SND.UNA and SND.NXT in agreement with a peer that knows this ISS |
| `Handshake.HandshakeAgreement` | TcpStack.cpp:316-436 | the same after every run of connects, deliveries, transmissions, timeouts, reads, writes and closes in whatever state, over a network that loses, duplicates and reorders (section 3.4 of RFC 793), as long as no close turns an RCV.NXT left by chance into an acknowledgement |
| `Handshake.SafeRunIsUnmistakable` | TcpStack.cpp:238-242 | that cannot happen when no block starts with an RCV.NXT that is the number after the peer's ISS |
| `Handshake.MistakenAck` | TcpStack.cpp:238-242 | it does happen otherwise: a close in SYN_SENT makes the block LAST_ACK, and its data establishes a peer whose number nobody has recorded |
| `Opening.ThreeWayHandshakeSynchronises` | TcpStack.cpp:316-436 | SYN, SYN-ACK, ACK leave both ends in the state from which the stream theorems start, and the child asks for its accept entry |
| `Opening.SimultaneousOpenSynchronises` | TcpStack.cpp:378-433 | two crossing SYNs and SYN-ACKs leave both ends synchronised, and the two final ACKs change nothing (Figure 8 of RFC 793) |
| `WholeLife.RestIsQuiescent` | TcpStack.cpp:438-492 | a data phase at rest is a quiescent pair: each SND.UNA = SND.NXT = the peer's RCV.NXT |
| `WholeLife.ConnectionLives` | TcpStack.cpp:213-578 | open, any data phase that comes to rest, any closing phase: all bytes have arrived in order and closing ends with both ends CLOSED |
| `Resets.ResetsEndTheExchange` | TcpStack.cpp:303-314 | a reset is never answered by a reset; everything else to a closed end is |
| `Resets.ResetNumbers` | TcpStack.cpp:303-314 | the sender of a segment with ACK gets its own ACK number back; otherwise the reset acknowledges all that the segment occupied, if and only if it is not a FIN |
| `Routing.RefusalGoesBack` | TcpStack.cpp:593-605 | a segment that no live connection or listener takes is answered, to where it came from, by exactly this reset, and changes nothing else |
| `Resets.RefusedConnectCloses` | TcpStack.cpp:346-356 | a SYN to a closed port brings back a reset that the connecting end accepts |
| `Resets.RejectionAbortsHalfOpen` | TcpStack.cpp:358-362 | the reset for an unacceptable ACK carries its number, aborts a half-open peer and is ignored in SYN_SENT |
| `Resets.ResetClosesExactlyWhen` | TcpStack.cpp:350-405 | a reset without FIN closes exactly: SYN_SENT if it acknowledges the SYN, SYN_RECEIVED always, CLOSING and LAST_ACK if it acknowledges the FIN |
| `Resets.ResetIgnoredExactlyWhen` | TcpStack.cpp:603-633 | the reset bit makes no difference for any segment if and only if the state is none of CLOSED, SYN_SENT and SYN_RECEIVED |
| `Lifecycle.ReceiveKeeps` | TcpStack.cpp:598-633 | every handler raises the rank of the state when it changes it, never enters TIME_WAIT, and queues the socket when it leaves work behind |
| `Lifecycle.ProcessKeeps` | TcpStack.cpp:45-96 | a processed block with work left asks to be queued again |
| `Lifecycle.CloseKeeps` | TransmissionControlBlock.h:136-145 | a close from any state leaves no work unqueued; it keeps the order of states if and only if the rank is below that of FIN_WAIT_2 or the state is LAST_ACK |
| `Lifecycle.ReceiveSteady` | TcpStack.cpp:346-578 | no handler changes identifier, addresses or accept queue of its block, and an accept entry is asked for only on SYN_RECEIVED to ESTABLISHED |
| `Replies.StateExactlyWhen` | TcpStack.cpp:603-633 | for every state and segment, exactly which state follows (Figure 6 of RFC 793 as far as the program goes) |
| `Replies.AnswersAreCurrent` | TcpStack.cpp:266-281 | every answer but a reset acknowledges RCV.NXT, is numbered SND.NXT (ISS for a SYN) and offers the free space, as they are after the step |
| `Replies.FinAnsweredExactlyWhen` | TcpStack.cpp:442-550 | after the handshake a FIN is answered exactly in ESTABLISHED, FIN_WAIT_1 and FIN_WAIT_2, by one ACK of the number after the FIN, where RCV.NXT then stands |
| `Replies.WindowFollowsPeer` | TcpStack.cpp:316-477 | SND.WND is what the last segment offered that completed a handshake step or was an ACK in ESTABLISHED |
| `Replies.EffectExactlyWhen` | TcpStack.cpp:399-578 | the tables are asked to destroy exactly at the end of a teardown, to abort exactly on a reset in SYN_RECEIVED, to enqueue exactly on a completed passive handshake |
| `StackRuns.ProcessAllLeavesAwake` | TcpStack.cpp:98-111 | working off the swapped-out queue leaves no socket with work unqueued |
| `StackRuns.NextEvolves` | TcpStack.cpp:580-636 | every action of the stack keeps identities and keeps or raises every state but the one a user call lowers |
| `StackRuns.NextKeepsGood` | TcpStack.cpp:69-111 | every disciplined action, closes from any state and arbitrary segments included, keeps the wake-up rule |
| `StackRuns.NoLostWakeup` | TcpStack.cpp:69-111 | in every state of every run, whatever arrives and whichever sockets are closed in whatever state, an ESTABLISHED socket with unsent bytes and an open window is in the dirty queue |
| `StackRuns.EarlySendLosesWakeup` | TcpStack.cpp:51-54 | a send during the handshake can leave a socket ESTABLISHED with work and the queue empty |
| `StackRuns.ClosingWakeupLostExactlyWhen` | TcpStack.cpp:442-458 | a CLOSE_WAIT socket with something to send is queued too, up to exactly the steps in which a FIN leaves work behind on a socket that is not queued |
| `StackRuns.NoLostClosingWakeup` | TcpStack.cpp:69-111 | the same over runs |
| `Timers.RoundRepeatsOldest` | TcpStack.cpp:113-139 | for every list of expired timers, the round writes in list order exactly one packet for each live ESTABLISHED socket with bytes in flight and in its buffer, numbered SND.UNA, with the first min(in flight, 1460) bytes, from its address to its peer; nothing for others, and no block changes |
| `StackRuns.StatesOnlyRise` | TransmissionControlBlock.h:127-145 | from any reachable state on, a connection that no user call lowers has kept its state or moved to one of strictly higher rank; TIME_WAIT is unreachable |
| `StackRuns.FallsExactlyWhenLowered` | TcpSocket.cpp:30-61 | the calls that lower a state are exactly: connect on a used socket, listen on a CLOSED one, close in FIN_WAIT_2, CLOSING or CLOSED |
| `StackRuns.PushedOnlyWhenEstablished` | TcpStack.cpp:418-428 | an identifier enters an accept queue only in the step that takes its socket from SYN_RECEIVED to ESTABLISHED |
| `StackRuns.AcceptedAtMostOnce` | TcpStack.cpp:422-428 | once pushed, an identifier is never pushed again in whatever the stack does next, unless that socket is opened again |
| `Accepting.AcceptsInOrder` | TcpSocket.cpp:76-106 | over every run that leaves a listener alive: initial queue ++ children established on its port, in order = children returned by accept, in order ++ final queue |
| `Accepting.AcceptReturnsWaiting` | TcpSocket.cpp:83-100 | in every reachable state accept on a listener returns 0 if and only if no child waits |
| `Accepting.EnqueuesExactlyWhen` | TcpStack.cpp:407-428 | a segment enqueues a child if and only if it completes the handshake in SYN_RECEIVED |
| `Serving.BindBinds` | TcpSocket.cpp:14-28 | bind makes exactly one CLOSED socket on the resolved address with the number drawn, and routes the port to it |
| `Serving.ListenListens` | TcpSocket.cpp:30-39 | a CLOSED socket enters LISTEN and keeps all else; any other is left alone |
| `Serving.ServerAccepts` | TcpStack.cpp:316-436 | on any coherent stack bind, listen, the SYN of an unconnected client and the ACK of the SYN-ACK lead to exactly one ESTABLISHED child with matching addresses, numbers and window, which accept on the bound socket returns |
| `Serving.ChildMadeExactlyWhen` | TcpStack.cpp:593-612 | a child is made exactly for a SYN without ACK to a port with a live listener on a pair without a live connection |
| `ActiveOpen.ResolveKeepsOrAllocates` | TcpSocket.cpp:14-20 | a given address is kept, a zero one filled in; an ephemeral port is one without a live listener if there is one |
| `ActiveOpen.ConnectOpens` | TcpSocket.cpp:42-61 | on any stack and for any socket, connect starts exactly one socket on the resolved address and drawn number, routes the pair to it and queues it |
| `ActiveOpen.SynLeaves` | TcpStack.cpp:51-54 | when the daemon comes to that socket, its SYN leaves for the peer |
| `ActiveOpen.BothReachableExactlyWhen` | TcpStack.cpp:249-264 | of two opens to one remote address the first stays reachable if and only if the two ephemeral ports differ, by counter and live listeners |
| `UserCalls.SendTakesWhatFits` | TcpSocket.cpp:108-116 | send waits exactly on a full buffer that is not released; otherwise it appends what fits and queues the socket |
| `UserCalls.RecvHandsOutFront` | TcpSocket.cpp:118-129 | recv waits exactly on an empty buffer that is not released; otherwise it splits off the front |
| `Identities.DestroyedIsNeverFound` | ConnectionTable.cpp:23-33 | over any sequence of operations an identifier once destroyed is found by neither table again, even where stale routes remain |
| `Identities.FoundIsLive` | ListenerTable.cpp:15-25 | in every reachable state both `find`s return 0 or a live identifier stored under itself |
| `Identities.RunKeepsKeys` | SocketTable.cpp:3-16 | over any sequence of operations identifiers are issued in strictly increasing order and each block carries its key |
| `Identities.RunKeepsRoutes` | ConnectionTable.cpp:3-21 | in every reachable state each route, live or stale, leads to an identifier that has been issued |
| `OldDuplicate.SynOpensChild` | TcpStack.cpp:316-344 | a SYN to a waiting server makes exactly one half-open, routed child and one SYN-ACK |
| `OldDuplicate.ClientRejects` | TcpStack.cpp:358-362 | a SYN-ACK for another SYN changes nothing on the client and is answered with a reset |
| `OldDuplicate.ServerAborts` | TcpStack.cpp:399-405 | a reset frees the half-open child and its route and nothing else |
| `OldDuplicate.ClientEstablishes` | TcpStack.cpp:364-377 | the right SYN-ACK establishes the client with matching numbers and one ACK |
| `OldDuplicate.ServerEstablishes` | TcpStack.cpp:407-436 | the ACK establishes the child and appends it to the listener's accept queue |
| `OldDuplicate.OldDuplicateRecovers` | tests/Rfc793ScenariosTest.cpp:45-94 | for every stale sequence number the exchange of Figure 9 of RFC 793 ends with exactly one new child, both ends ESTABLISHED on the real numbers |
| `Routing.DeliveryIsHandlerStep` | TcpStack.cpp:580-636 | on a stack without the opposite route, a delivery to a block neither in LISTEN nor in SYN_RECEIVED is the handler's step on that block alone; no route is lost, not even by teardown |
| `Routing.TeardownFreesOppositeRoute` | TcpStack.h:149-150 | the closing step always leaves its own route; the socket it frees is the one of the opposite route, its own if and only if that route leads to it |
| `Routing.CloseFreesOppositeRoute` | TcpStack.cpp:238-242 | a close that sends no FIN erases exactly the opposite route and frees the socket it led to, writes nothing, and leaves the socket, if it stays, in LAST_ACK |
| `Routing.CloseSendsFin` | TcpStack.cpp:213-237 | a close from ESTABLISHED or CLOSE_WAIT writes its FIN last, from the socket's address to its peer, and keeps socket and routes |
| `Ports.ProbeIsExhaustive` | TcpStack.cpp:249-262 | from any counter value 16384 probes find an unbound port of 49152..65534 whenever there is one, although 49152 is tried twice at the wrap |
| `Ports.ProbeStaysInRange` | TcpStack.cpp:249-264 | result in 49152..65535, counter back in range or just wrapped |
| `Ports.ProbeResult` | TcpStack.cpp:249-264 | for every counter and bound set: the first free port from the counter on, with the counter just past it; at the wrap the lowest port, with the counter left on it; the counter itself when nothing is free |
| `Ports.SuccessiveDifferExactlyWhen` | TcpStack.cpp:249-264 | two allocations in a row over the same bound set differ if and only if two ports are free and the first does not take the lowest at the wrap, or nothing is free and the counter is in the range |
| `Ports.AllocateEphemeralPort` | TcpStack.cpp:249-264 | the loop returns the first unbound port in probe order, never a bound one while a free one exists |
| `ByteQueue.RunConserves` | BlockingBuffer.h:48-149 | over any run of calls: initial contents ++ accepted = removed ++ final contents |
| `ByteQueue.EmptyReadMeansDrained` | BlockingBuffer.h:71-91 | a returning non-empty read gets nothing if and only if nothing is buffered, which only happens after a forced wake-up |
| `Ring.BlockingBuffer.constructor` | BlockingBuffer.h:30-35 | a new ring represents the empty queue |
| `Ring.BlockingBuffer.ForceWakeUp` | BlockingBuffer.h:38-43 | waiting is released, contents kept |
| `Ring.BlockingBuffer.Write` | BlockingBuffer.h:48-68 | appends the longest prefix that fits, around the end of the array, and returns its length |
| `Ring.BlockingBuffer.Read` | BlockingBuffer.h:71-91 | copies out and removes the front of the queue, leaving the rest of the caller's array alone |
| `Ring.BlockingBuffer.TryRead` | BlockingBuffer.h:94-114 | the same without waiting |
| `Ring.BlockingBuffer.Peek` | BlockingBuffer.h:117-134 | copies out the slice at the offset and changes nothing |
| `Ring.BlockingBuffer.Discard` | BlockingBuffer.h:137-149 | removes at most `count` elements from the front |
| `Ring.RemainderIsSlot` | BlockingBuffer.h:61 | the `%` updates of the positions stay on the ring slot of the represented index |
| `Ring.WindowDrop` | BlockingBuffer.h:140-142 | moving the read position forward drops a prefix of the represented sequence |
| `Checksum.OnesSumUnique` | utils/Checksum.cpp:17-22 | the folded value is the one number of 16 bits congruent modulo 65535 that is 0 only for 0 (section 1 of RFC 1071) |
| `Checksum.FoldStep` | utils/Checksum.cpp:18-20 | one carry fold decreases the sum, keeps it positive and keeps it modulo 65535 |
| `Checksum.Fold` | utils/Checksum.cpp:18-22 | folding terminates at the one's complement sum |
| `Checksum.FitsAccumulator` | utils/Checksum.cpp:4-15 | up to 65537 words the 32-bit accumulator cannot overflow |
| `Checksum.OnesComplementChecksum` | utils/Checksum.cpp:3-23 | the loop computes the folded complement of the word sum modulo 2^32 for data of any length, which up to 65537 words is the reference checksum |
| `Checksum.VerifiesExactlyWhen` | utils/Checksum.cpp:17-22 | of verifying data with any one word replaced, exactly the replacements congruent modulo 65535 verify too |
| `Checksum.SelfVerifies` | utils/Checksum.h:18-26 | data with its checksum in place has checksum 0, for any even offset and any length |
| `Checksum.ComputeTcpChecksum` | utils/Checksum.cpp:35-77 | the split sum equals the sum over pseudo-header ++ header ++ payload laid out in one piece, odd and even payloads, with length and accumulator truncated as in the program; up to 65535 octets it is the reference checksum |
| `Checksum.SplitSum` | utils/Checksum.cpp:35-69 | the word sums of the parts add up to that of the whole for an even header length |
| `Checksum.TcpSelfVerifies` | TcpPacket.cpp:115-142 | a segment with its checksum in place verifies to 0 over pseudo-header and segment |
| `Wire.FlagSetter` | TcpPacket.h:267-273 | setting or clearing a control bit changes exactly that bit |
| `Wire.OffsetSetter` | TcpPacket.h:246-251 | setting the data offset changes exactly the top four bits |
| `Wire.Ipv4Setters` | IPv4Packet.h:222-268 | the packed IPv4 setters keep the neighbouring field |
| `Wire.TcpHeaderRoundTrip` | TcpPacketView.h:82-165 | the view reads back every field of a serialized TCP header, whatever follows it |
| `Wire.Ipv4HeaderRoundTrip` | IPv4PacketView.h:99-151 | the view reads back every field of a serialized IPv4 header |
| `Wire.TcpRoundTrip` | TcpPacketView.h:35-39 | every header with data offset 5 and payload up to 65515 octets is valid, reads back with its payload and verifies |
| `Wire.Ipv4RoundTrip` | IPv4PacketView.h:35-40 | the same for datagrams of version 4 and five header words |
| `Packets.TcpHeader.SetFlag` | TcpPacket.h:267-281 | the mutable setter: exactly one flag of the header changes |
| `Packets.TcpHeader.SetDataOffset` | TcpPacket.h:246-251 | the mutable setter: the low twelve bits and all other fields are kept |
| `Packets.Ipv4Header.SetVersion` | IPv4Packet.h:222-226 | version set, IHL kept |
| `Packets.Ipv4Header.SetIhl` | IPv4Packet.h:229-233 | IHL set, version kept |
| `Packets.Ipv4Header.SetFragmentOffset` | IPv4Packet.h:263-268 | offset set, flags kept |
| `Packets.WriteTcp` | TcpPacket.cpp:127-152 | too small a buffer is left alone; else header with checksum, the gap up to a longer header length as it was, payload; the packet's own header is not changed |
| `Packets.ComputeIpv4Checksum` | IPv4Packet.cpp:100-106 | the checksum over the header with a zero checksum field, whatever the field held |
| `Packets.WriteIpv4` | IPv4Packet.cpp:108-125 | the same for datagrams, total length truncated to 16 bits |
| `Packets.WritePacket` | TcpStack.cpp:638-657 | segment and datagram as laid out by the reference; too large payloads give nothing or a bare header |
| `WireDelivery.BuildHeader` | TcpStack.cpp:266-281 | the setters leave exactly the segment's flags, numbers and window |
| `WireDelivery.SendPacket` | TcpStack.cpp:638-657 | sending a packet of up to 65495 octets of payload puts its encoding on the wire |
| `WireDelivery.PacketRoundTrip` | TcpStack.cpp:580-588 | the encoding is valid for both views and parses back to the same packet |
| `WireDelivery.PacketLayout` | TcpPacket.cpp:127-152 | every field of a packet on the wire lies at the octets that section 3.1 of RFC 791 and of RFC 793 give it |
| `WireDelivery.PacketVerifies` | IPv4Packet.cpp:115-117 | both checksums of a packet on the wire verify to 0 |
| `WireDelivery.DecodeIgnoresIpv4Checksum` | IPv4PacketView.h:35-40 | the IPv4 checksum word has no influence on acceptance, nor on the packet parsed when the header length is at least five words |
| `WireDelivery.DecodeIgnoresTcpChecksum` | TcpPacketView.h:35-39 | nor has the TCP checksum word |
| `WireDelivery.WrongChecksumsAreAccepted` | TcpStack.cpp:580-588 | every packet with both checksum words replaced by anything parses as the same packet, although each checksum verifies only for words congruent to the right one |
| `WireDelivery.BytesRefineSegments` | TcpStack.cpp:580-636 | delivering the octets of a packet to a stack is delivering the packet |
| `TwoStacks.ProcessAllRefines` | TcpStack.cpp:98-111 | a daemon round over the whole dirty queue, other sockets included, is a number of transmissions of this connection, and exactly their datagrams leave for the peer |
| `TwoStacks.DeliverRefines` | TcpStack.cpp:580-636 | a datagram delivered to a whole stack is the oldest segment delivered to the control block |
| `TwoStacks.ElsewhereKeeps` | TcpStack.cpp:580-636 | any other user call, arrival or timeout on the host leaves the connection's block and route alone and writes nothing to its peer |
| `TwoStacks.OctetStreamsAreConserved` | TcpStack.cpp:438-492 | for two whole stacks over lossless FIFO channels of octets, in every interleaving of writes and reads on the connection, daemon rounds, deliveries, and any actions elsewhere on either host: read ++ receive buffer ++ parsed payloads in flight ++ unsent tail is exactly what the peer wrote, and every datagram parses and fits |
| `WireDelivery.EmittedSegmentsFit` | TcpStack.cpp:74-77 | every segment a block emits is small enough to be encoded |
| `Connection.TransmissionControlBlock.constructor` | TransmissionControlBlock.h:122-125 | a new record holds a fresh block with two empty rings |
| `Connection.TransmissionControlBlock.ProcessBlock` | TcpStack.cpp:45-96 | the record after `process_block_` holds the next value of the block, with the same segment and queueing decision |
| `Connection.TransmissionControlBlock.Retransmit` | TcpStack.cpp:113-139 | the segment of a timeout; the record is unchanged |
| `Connection.TransmissionControlBlock.StartConnect` | TcpSocket.cpp:55-58 | the record enters SYN_SENT on the drawn number |
| `Connection.TransmissionControlBlock.Send` | TcpSocket.cpp:108-116 | the accepted prefix is appended to the send ring and counted |
| `Connection.TransmissionControlBlock.Recv` | TcpSocket.cpp:118-129 | the front of the receive ring is handed over and removed |
| `Connection.TransmissionControlBlock.CloseBuffers` | TransmissionControlBlock.h:136-145 | both rings are woken and the state moves on |
| `Connection.TransmissionControlBlock.CloseConnection` | TcpStack.cpp:213-243 | the record after close, the flushed segment and the FIN, or the request to destroy the route |
| `Connection.TransmissionControlBlock.HandleSynSent` | TcpStack.cpp:346-393 | the record and reply after any segment in SYN_SENT |
| `Connection.TransmissionControlBlock.HandleSynReceived` | TcpStack.cpp:395-436 | the record, reply and table request after any segment in SYN_RECEIVED |
| `Connection.TransmissionControlBlock.AcceptAck` | TcpStack.cpp:461-468 | acknowledged bytes leave the send ring |
| `Connection.TransmissionControlBlock.AcceptPayload` | TcpStack.cpp:484-491 | payload enters the receive ring and is acknowledged, or the daemon is reported blocked |
| `Connection.TransmissionControlBlock.HandleEstablished` | TcpStack.cpp:438-492 | the record, replies and queueing after any segment in ESTABLISHED |
| `Connection.TransmissionControlBlock.HandleFinWait1` | TcpStack.cpp:494-527 | the record, reply and table request after any segment in FIN_WAIT_1 |
| `Connection.TransmissionControlBlock.HandleFinWait2` | TcpStack.cpp:529-550 | the same in FIN_WAIT_2 |
| `Connection.TransmissionControlBlock.HandleAwaitingFinAck` | TcpStack.cpp:552-578 | the same in CLOSING and LAST_ACK |
| `Connection.TransmissionControlBlock.Receive` | TcpStack.cpp:603-633 | the dispatch takes the record to the value that the theorems speak about |
| `Tables.SocketTable.CreateSocket` | SocketTable.cpp:3-10 | the next identifier, stored under itself |
| `Tables.SocketTable.DestroySocket` | SocketTable.cpp:12-16 | exactly this socket is removed; 0 is ignored |
| `Tables.ListenerTable.BindNew` | ListenerTable.cpp:8-13 | a new CLOSED socket is created and bound to the port |
| `Tables.ListenerTable.Find` | ListenerTable.cpp:15-25 | the live socket bound to the port; 0 if and only if there is none |
| `Tables.ListenerTable.Unbind` | ListenerTable.cpp:27-41 | route and socket are removed, dead routes included |
| `Tables.ListenerTable.Contains` | ListenerTable.cpp:43-50 | true if and only if a live socket is bound |
| `Tables.ConnectionTable.Insert` | ConnectionTable.cpp:3-6 | the pair leads to the socket from now on |
| `Tables.ConnectionTable.RegisterConnection` | ConnectionTable.cpp:8-21 | a live socket is readdressed, otherwise one is created; either way it is routed |
| `Tables.ConnectionTable.Find` | ConnectionTable.cpp:23-33 | the live socket of the pair; 0 if and only if there is none |
| `Tables.ConnectionTable.Erase` | ConnectionTable.cpp:35-38 | only the route is removed |
| `Tables.ConnectionTable.DestroyConnection` | ConnectionTable.cpp:40-54 | the route and whatever socket it led to are removed |
| `TcpStackObject.TcpStack.AddDirtyTcb` | TcpStack.cpp:187-192 | only live sockets are queued, at the end |
| `TcpStackObject.TcpStack.ApplyStep` | TcpStack.cpp:399-428 | the outcome of a handler is stored, written, queued and settled with the tables |
| `TcpStackObject.TcpStack.ProcessDirtyBlocks` | TcpStack.cpp:98-111 | the queue is swapped out and worked off in order; what is queued meanwhile stays for the next round |
| `TcpStackObject.TcpStack.CheckRetransmissions` | TcpStack.cpp:113-139 | each expired socket retransmits once, in order |
| `TcpStackObject.TcpStack.HandlePassiveOpenSyn` | TcpStack.cpp:316-344 | child, route and SYN-ACK for a SYN to a bound port; nothing otherwise |
| `TcpStackObject.TcpStack.ProcessIncomingPacket` | TcpStack.cpp:590-636 | routing, dispatch and refusal take the object to the next value of the model |
| `TcpStackObject.TcpStack.ProcessIncomingBytes` | TcpStack.cpp:580-588 | octets that do not parse change nothing; others act as their packet |
| `TcpStackObject.TcpStack.AllocateEphemeralPort` | TcpStack.cpp:249-264 | probes against the live listeners and keeps the counter |
| `TcpStackObject.TcpStack.BindSocket` | TcpSocket.cpp:14-28 | a new socket bound to the resolved address on the drawn number |
| `TcpStackObject.TcpStack.ConnectSocket` | TcpSocket.cpp:42-61 | the socket is routed, starts its handshake and is queued |
| `TcpStackObject.TcpStack.ListenSocket` | TcpSocket.cpp:30-39 | only a CLOSED socket starts to listen |
| `TcpStackObject.TcpStack.AcceptSocket` | TcpSocket.cpp:76-106 | the oldest established child is handed out and removed; 0 where there is none |
| `TcpStackObject.TcpStack.SendSocket` | TcpSocket.cpp:108-116 | the data that fits is buffered and counted, and the socket queued |
| `TcpStackObject.TcpStack.RecvSocket` | TcpSocket.cpp:118-129 | the oldest bytes are handed out and removed; none for a dead socket |
| `TcpStackObject.TcpStack.CloseConnection` | TcpStack.cpp:213-243 | close of one socket, with its effect on the tables |

## Left out

- Ring.BlockingBuffer.Write: waiting is a precondition; the call is modelled from the moment its wait is over.
- Ring.BlockingBuffer.Read: the same.
- Connection.TransmissionControlBlock.Send: the same, for the send ring.
- Connection.TransmissionControlBlock.Recv: the same, for the receive ring.
- Packets.WriteTcp: a data offset of 1 to 4, with which the payload would overwrite the header, and buffers over 65535 octets are excluded.
- Packets.WriteIpv4: header lengths of 1 to 4 words are excluded in the same way.
- Packets.WritePacket: takes headers with data offset 5, which is what every caller sets.
- Checksum.ComputeTcpChecksum: excludes odd header lengths, which read past the header.
- Tables.SocketTable.CreateSocket: identifiers are unbounded; exhaustion of 64-bit identifiers is not modelled.
- TcpStackObject.TcpStack.ProcessIncomingPacket: the table holds control blocks as values; pointers to blocks kept across calls and aliasing between them are not captured. The record with its rings is in Connection.
- TcpStackObject.TcpStack.ApplyStep: a delivery that would wait in the receive buffer (`blocked`) is stored as finished with its payload dropped and no ACK, where the program writes what fits once the reader makes room. `Stream.PayloadStoredExactlyWhen` says when, and in `Stream` and `TwoStacks` it never happens. The same holds of `Store` and `Apply`.
- TcpStackObject.TcpStack.AcceptSocket: returns at once where the program would wait, as do RecvSocket and SendSocket.
- StackRuns.NoLostWakeup: is about complete steps; the moment between swapping the dirty queue and working it off is inside a step.
- Teardown.TeardownCompletes: freeing of the control blocks is not claimed; Routing states what is freed. A close in any other state than ESTABLISHED and CLOSE_WAIT is no step there, where the program makes the block LAST_ACK and calls `destroy_connection` (`Connection.TransmissionControlBlock.CloseConnection`, `Routing.CloseFreesOppositeRoute`).
- TwoStacks.OctetStreamsAreConserved: timeouts and closes of the connection itself are no steps.
- End-to-end delivery when the network loses data or the timer fires: the receiver does not check SEQ, so it does not hold.
- Progress after a zero window: reading sends no window update.
- Threads, mutexes and condition variables: each locked region, handler or user call is one atomic step; `close_connection` racing with the daemon is not modelled.
- The device, the loopback queue and the choice between them: packets go to an output sequence.
- Clocks: which retransmission timers have expired is an input; `last_written`, `RTO` and `retransmit_attempts` are not kept.
- Initial sequence numbers: any 32-bit value, an input where one is drawn.
- The hash of the connection table: the table is a map. The order in which the socket table is walked is an input.
- Logging, packet dumps, `IPv4Address::from_string`, the demo programs, options, urgent data, WL1/WL2, user timeout and fragmentation.

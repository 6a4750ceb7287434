# Verification of the STCP transport and of the router's shared state

A Dafny model of the hard parts of this repository, with proofs:

- **hw3, the STCP reliable transport**: a sliding-window byte stream over a network that drops,
  duplicates, delays and reorders packets; with its packet queues, its checksum and its listen backlog.
- **hw4, the simple router**: streaming SHA-1, the Internet checksum, the ARP cache with its queue of
  pending requests, and longest-prefix matching.

`dafny verify dfyconfig.toml` checks the whole project.

## How the model is laid out

The transport has two layers.

*In place.* `SegmentLists`, `PacketQueues` and `Transport` are classes with real linked nodes, changed by
loops, and with unsigned 32-bit arithmetic written out (`Basics.U32`, `Basics.Int32`). Every handler of the
control loop is a method proved to compute the function of the same purpose in `Protocol`, including the
packets it sends, in order, and the state-machine events it raises.

*Runs.* `Protocol` gives the handlers as functions on the value of one end. `Runs` takes two ends, their
applications, and the set of every packet either end has ever sent: any of those may arrive at any time, any
number of times, or never. `Network` shows why this is the right network for `_network_send`. A timeout is a
step that may happen whenever data is in flight. Runs start when both ends have left the handshake, each with
`receive_next` equal to the peer's `send_base` and `next_seq_num`; packets of the handshake may still be on
their way. The main theorems, in `Guarantees`, `Recovery`, `WholePath`, `Progress` and `Delivery`, are about every
reachable state of these runs and rest on one invariant (`Runs.Inv`): the first three say what cannot go wrong, the
other two what the loop does when it can, and that everything can still be delivered.

Sequence numbers are unbounded in the runs. `Guarantees.NoWrapAround` shows that nothing computed reaches
2^32 while initial number, stream length and window together stay below it, which is the hypothesis under
which the source's plain comparisons are meant to work and which the methods of `Transport` require.

The other parts follow the same pattern: specification functions and what is true of them
(`Sha1Standard`, `Checksum`, `ArpState`/`ArpRuns`, `Backlog`, `Routing`), and methods that compute
those functions in place (`Sha1Streaming`, `ArpCache` with its linked requests and frames, `ListenQueues`).

The ARP cache is used by two threads, and the steps of the runs are theirs. Looking up, queueing, a reply and freeing
a request take the lock for themselves; the sweeping thread holds it from the beginning of its walk to the end.
`sr_arpcache_handle_arpreq` takes none: in either thread it is a test of the request in hand and, later, an action
on the outcome, and the other thread may come in between. Giving a request up sends messages, which are looked up,
queued and handled before it is freed, in the sweep's walk too, so each thread has a stack of calls; the walk also
remembers the request it goes on with. `ArpGuarantees` and `ArpOvertaking` state what holds and exactly when,
`ArpRaces` gives the runs that break it, and `ArpSweeps` shows that a sweep left alone is the walk that `ArpCache`
computes in place.

The listen backlog is used by the thread that takes packets and by the one that accepts, under the read side of one
lock. `BacklogRuns` takes their steps apart down to the loads and stores of `cur_len`; `BacklogCount` states what the
count is in every run, `BacklogRaces` what lost updates lead to, and that an operation left alone is the one that
`ListenQueues` computes in place.

| file | what it holds |
|---|---|
| `Basics.dfy` | bytes, 32-bit values, options, flattened chunk lists |
| `Segments.dfy` | segments, the receive list, interval merge and flush, and the map they refine |
| `Protocol.dfy` | the handlers and one pass of the control loop, as functions |
| `Streams.dfy`, `Receiver.dfy`, `SendSide.dfy`, `Connection.dfy` | what one end keeps |
| `Runs.dfy`, `Recovery.dfy`, `Guarantees.dfy`, `WholePath.dfy` | both ends, the network, and the theorems about runs |
| `Progress.dfy`, `Delivery.dfy` | what the control loop does when it can, when it gives up, and that everything can arrive |
| `CloseOrder.dfy`, `WindowRuns.dfy` | runs that show where less holds than one might expect |
| `SegmentLists.dfy`, `PacketQueues.dfy`, `Transport.dfy` | the linked buffers, the queues and the handlers in place |
| `Network.dfy`, `NetworkRuns.dfy` | the unreliable network layer, and its place in the runs |
| `Backlog.dfy`, `ListenQueue.dfy` | the listen backlog as a value and in place |
| `BacklogRuns.dfy`, `BacklogCount.dfy`, `BacklogRaces.dfy` | runs of its two threads, the count in them, and what lost updates lead to |
| `Checksum.dfy` | both Internet checksums |
| `Sha1Standard.dfy`, `Sha1Example.dfy`, `Sha1Context.dfy` | SHA-1 by FIPS 180-4, its example "abc" worked out, and the streaming implementation |
| `ArpState.dfy`, `ArpRuns.dfy`, `ArpThreads.dfy` | the ARP cache and pending requests as values, the books kept about them, and the steps of the two threads |
| `ArpGuarantees.dfy`, `ArpOvertaking.dfy`, `ArpLearning.dfy` | the theorems about runs of the two threads; what a reply teaches and for how long |
| `ArpSweeps.dfy`, `ArpRaces.dfy` | the sweep that nothing disturbs, and the runs that break the rules |
| `ArpCache.dfy` | the cache in place, with linked requests and frames |
| `Routing.dfy` | the routing-table lookup |

## Where the code does less than one might expect

- *State and flags.* `connection_state` is determined by own FIN issued or queued, own FIN acknowledged and
  peer's FIN consumed except in one case: with the own FIN unacknowledged and the peer's consumed it is CLOSING
  or LAST-ACK according to which FIN came first. `CloseOrder.FlagsLeaveTwoStates` gives two runs,
  `Connection.StateMeaning` the exact rule.
- *Emptying the send buffer.* The acknowledgement after a Go-Back-N round empties the send buffer unless a FIN
  was waiting for the window to open; then the buffer holds exactly that FIN (`Recovery.AckReleases`;
  `WindowRuns.BufferNotEmptied` reaches such a state).
- *Reading zero bytes.* `myread` with a length of 0 while data waits returns 0 and sets the end-of-file flag
  (`WholePath.ZeroReadIsTakenForEof`), after which nothing is ever read (`WholePath.EofIsFinal`;
  `WindowRuns.ZeroReadLosesData` is a run in which that happens). The whole-path
  prefix theorem holds for all reads; that 0 means end of file holds for positive ones.
- *Default routes.* `sr_findLPMentry` starts with a longest mask of 0 and asks for a larger one, so a route with
  mask 0 is never found. The lookup gives the longest match if and only if that match is no default route
  (`Routing.DefaultRouteIsIgnored`, and `Routing.OnlyDefaultRoute` for a table where it matters).
- *A checksum field of zero.* The router recomputes with a `cksum` that never returns 0. It therefore refuses
  exactly those correct headers whose field is 0 (`Checksum.RecomputeAcceptsUnlessZero`,
  `Checksum.ZeroFieldRefused`).
- *Handling a request without the lock.* A thread goes on with a request that it has in hand, and the sweep's walk with
  the one that came next. Freed memory is used exactly when a request is given up that is in use elsewhere: by the
  other thread, by a call further out, or as the walk's next (`ArpGuarantees.FreedOnlyByFatalStep`;
  `ArpRaces.FreedWhileInHand` and `ArpRaces.NextFreed` are such runs). When both threads have found a request due, both
  send it, so that a sixth request goes out, or two in one second, whichever thread is first (`ArpRaces.SixthRequest`).
  `ArpGuarantees.PatienceIff` says exactly when the rules on trying are kept, `ArpOvertaking.OvertakenIff` what makes
  a test that a thread is to act on cease to hold.
- *Learning an address twice.* A reply fills the first invalid entry and the look-up answers with the last valid one. A
  second hardware address for a known address is therefore not answered with when the free entry lies before the old
  one (`ArpLearning.ReplyIsLearned`, an if and only if), until that one expires.
- *Counting without the lock.* The increment of `cur_len` for a new connection and the decrement on acceptance can
  overwrite each other. `BacklogCount.CountOf` gives the count in every run; `BacklogCount.BacklogInvariant` holds while
  nothing is lost, and a lock around the three statements would see to that (`BacklogCount.LockSuffices`). Otherwise
  either assertion about the count can fail (`BacklogRaces.AcceptFails`, `BacklogRaces.SearchFails`), a request can be
  refused with a slot free (`BacklogRaces.RequestRefused`), and the socket can stop taking connections for good
  (`BacklogRaces.ListenerDies`).
- *After the peer's FIN.* Segments are ignored without an acknowledgement once the FIN has been consumed, so a
  lost last acknowledgement is not sent again by that path: safety and one round of recovery are proved, not
  that a close always completes.

## Model

| member | source | states |
|---|---|---|
| `Guarantees.PrefixSafety` | hw3/transport.c:901-1208 | in every reachable state what an end has passed to its application, and what the application has read, is a prefix of what the peer's application wrote, whatever the network lost, repeated or reordered |
| `Guarantees.OrderlyClose` | hw3/transport.c:567-633 | an end that is CLOSED other than by the retransmission abort has been given everything the peer's application wrote and knows that its own was all delivered; both applications closed |
| `Guarantees.WindowOrder` | hw3/transport.c:1084-1094 | across the network send_base <= peer's receive_next <= next_seq_num <= send_base + 3072, and no acknowledgement ever sent exceeds its sender's receive_next |
| `Guarantees.DequeueIsSafe` | hw3/transport.c:409-421 | any buffered segment that an acknowledgement in flight would drop has been delivered at the peer byte for byte, a FIN included |
| `Guarantees.SendBufferTiling` | hw3/transport.c:386-438 | buffered segments are contiguous, spell the matching slice of the application's stream, end at next_seq_num, the first holds send_base, and there are none exactly when nothing is in flight |
| `Guarantees.FinPlacement` | hw3/transport.c:1018-1055 | every FIN a side ever sends has the one number just past the last byte its application wrote, and no packet carries anything beyond it or off the stream |
| `Guarantees.QueuedFinFindsRoom` | hw3/transport.c:1105-1124 | the assertion that a queued FIN finds room never fails; the FIN goes out alone with the first acknowledgement that moves the window and is not reported acknowledged then |
| `Guarantees.EventsOfEveryRun` | hw3/transport.c:567-633 | each state-machine event happens at most once, own-FIN-acknowledged only after the FIN was sent and never while it is queued; the state is the one the flags and the order of the FINs give, unless aborted |
| `Guarantees.NoWrapAround` | hw3/transport.c:1148-1149 | while initial number, stream and window stay below 2^32, no sequence number that a handler forms in a reachable state wraps around |
| `Progress.DataIsSent` | hw3/transport.c:863-981 | in every reachable state in which the loop runs, the window is open and data waits, a pass without the network is possible; it sends exactly one packet at next_seq_num with the first min(536, window left, length) bytes of the first chunk, buffers it and leaves the rest queued; an empty chunk is dropped |
| `Progress.ChunkTaken` | hw3/mysock.c:177-237 | taking from a queue of chunks takes min(max, length) bytes of the first and keeps the rest |
| `Progress.CloseIsServed` | hw3/transport.c:1018-1055 | in every reachable state in which the loop runs and a close is requested after all data, a pass serves it: the FIN leaves at next_seq_num if the window is open and waits otherwise |
| `Progress.AcknowledgementIsTaken` | hw3/transport.c:1084-1103 | serving a packet makes send_base the larger of itself and the number acknowledged, and restarts the count of resends exactly if it moved |
| `Progress.SegmentsAreAnswered` | hw3/transport.c:1136-1208 | a segment is answered with a pure acknowledgement of the new receive_next exactly when it does not begin 3072 or more beyond receive_next and no FIN had been consumed |
| `Progress.AbortsAfterFiveResends` | hw3/transport.c:1057-1103 | in every run the count of resends is the number of timeouts since send_base last moved, at most 5, and the connection has been aborted exactly when that number is 6 |
| `Progress.TimeoutResends` | hw3/transport.c:1057-1082 | while something is in flight and the loop runs a timeout is possible; at a count of 5 it gives up and sends nothing, otherwise it resends the whole buffer in order, each segment as it is |
| `Delivery.BufferedWasSent` | hw3/transport.c:386-438 | in every reachable state each buffered segment is among the packets sent |
| `Delivery.EverythingCanArrive` | hw3/transport.c:849-898 | from every reachable state in which neither end has given up there is a run of control-loop passes alone after which the peer has been given everything the application has written |
| `CloseOrder.FlagsLeaveTwoStates` | hw3/transport.c:567-633 | two reachable states with own FIN issued and unacknowledged and the peer's FIN consumed, one CLOSING and one LAST-ACK |
| `Connection.StateMeaning` | hw3/transport.c:567-633 | for one end: the state as a function of the three flags and of which FIN came first |
| `Connection.ReplayLegal` | hw3/transport.c:567-633 | replaying any legal sequence of events through the transition table depends only on which events occurred and which came first |
| `Recovery.GoBackNRecovery` | hw3/transport.c:1057-1082 | from any reachable state, after a timeout resend, once every resent segment has been served at the peer in any order and among any other steps, the peer has received all that was in flight and nothing unissued; and unless it had consumed a FIN it sends, in that very run, an acknowledgement of all of it, also when it had received and acknowledged everything before |
| `Recovery.AckReleases` | hw3/transport.c:1084-1134 | that acknowledgement releases all that was resent; with nothing sent since, the buffer is then empty or holds just the FIN that was waiting |
| `Recovery.EventuallyAcked` | hw3/transport.c:1136-1208 | in the course of a run that serves a segment ending at or before t at an end without the peer's FIN, that end sends an acknowledgement of at least t, if it has received up to t by the end of the run; a duplicate is answered like a new segment |
| `Recovery.CaughtUp` | hw3/transport.c:422-438 | each position in flight at the timeout is covered by the peer once the resent segment that holds it has been served |
| `Recovery.PassPlace` | hw3/transport.c:849-898 | one pass of the control loop moves the receive side exactly as the incoming-segment handler alone does, whatever else it serves |
| `Recovery.FinMeansAll` | hw3/transport.c:353-383 | an end that has consumed the peer's FIN has received everything the peer ever issued |
| `Segments.InsertMerges` | hw3/transport.c:242-316 | insertion keeps the list sorted and disjoint; the positions held afterwards are the old ones, with their old bytes, plus exactly the missing ones of the new segment |
| `Segments.InsertFromHeld` | hw3/transport.c:276-301 | the same from any point of the traversal on |
| `Segments.FlushIsAdvance` | hw3/transport.c:353-383 | flushing the list is advancing through the map it holds, position by position, to the first missing one or past the FIN |
| `Segments.FlushOrdered` | hw3/transport.c:353-383 | what a flush leaves is still sorted and disjoint and begins beyond the new receive_next |
| `Receiver.ClampIsWindow` | hw3/transport.c:1169-1196 | clamping keeps exactly [max(seq, win_start), min(seq_end, win_end)) with its bytes, a FIN only if its position is inside, and never nothing, so the merge's assertion holds |
| `Receiver.IncomingRefinesMap` | hw3/transport.c:1136-1208 | clamp, insert and flush together are: add the part inside the window to a map, then take positions in order until one is missing; while no FIN is consumed what is held stays strictly inside the window |
| `Receiver.IncomingReceives` | hw3/transport.c:1136-1208 | a segment of the peer's stream extends what was delivered to a longer or equal prefix of that stream |
| `Receiver.IncomingCovers` | hw3/transport.c:1136-1208 | after a segment an end covers what it covered plus exactly the segment's positions below the end of the window |
| `Receiver.OrderIndependence` | hw3/transport.c:242-383 | for segments cut from one stream and ending in the initial window, receive_next, the delivered bytes, the FIN flag and what is held depend only on which segments arrived |
| `Receiver.CoverageDetermines` | hw3/transport.c:353-383 | two receivers of one stream that cover the same positions have delivered the same and hold the same |
| `SendSide.DequeueTiled` | hw3/transport.c:409-421 | a cumulative acknowledgement drops whole segments only and leaves a buffer whose first segment holds the new send_base |
| `SendSide.AppDataKeeps` | hw3/transport.c:901-981 | sending application data keeps the send side in order: the buffer spells the stream, the packet carries its piece |
| `SendSide.AppCloseKeeps` | hw3/transport.c:1018-1055 | so does closing, with the window open or closed |
| `SendSide.AckKeeps` | hw3/transport.c:1084-1134 | so does any acknowledgement, including one that releases a queued FIN |
| `SendSide.TimeoutKeeps` | hw3/transport.c:1057-1082 | so does a timeout, resending or giving up |
| `SendSide.ResendSends` | hw3/transport.c:422-438 | a packet is resent exactly when some buffered segment is it, with the current acknowledgement number |
| `Connection.WakeMoves` | hw3/transport.c:849-898 | one pass of the control loop keeps all that holds of one end, moves nothing backwards, and keeps send_base within what the peer has received |
| `Connection.AckMoves` | hw3/transport.c:1084-1134 | the same of an acknowledgement, and it raises own-FIN-acknowledged exactly when due |
| `Connection.IncomingMoves` | hw3/transport.c:1136-1208 | the same of an incoming segment |
| `Runs.DoOk` | hw3/transport.c:849-898 | every action of an end or its application, in a state that satisfies the invariant, keeps its part of it |
| `Runs.InvNext` | hw3/transport.c:849-898 | every step of either end keeps the invariant on both ends and on every packet ever sent |
| `Runs.InvExec` | hw3/transport.c:849-898 | so does every run, and neither stream, send_base, receive_next nor next_seq_num moves backwards |
| `Runs.InvReachable` | hw3/transport.c:849-898 | the invariant holds in every reachable state |
| `WholePath.ReadsArePrefixOfWrites` | hw3/mysock_api.c:198-233 | in every run the concatenation of all results of myread at one end is a prefix of the concatenation of all buffers given to mywrite at the other |
| `WholePath.ReadZeroMeansEof` | hw3/mysock_api.c:212-233 | with positive read sizes, myread returns 0 exactly when everything passed up has been read; and then that is everything the peer wrote, unless the connection was aborted |
| `WholePath.ZeroReadIsTakenForEof` | hw3/mysock_api.c:225-230 | while data waits, myread returns 0 and sets the end-of-file flag exactly when it was asked for 0 bytes |
| `WholePath.ReadDoesNotBlock` | hw3/mysock_api.c:212-233 | in every reachable state in which the peer's FIN has been consumed or the transport thread has ended, myread does not block |
| `WholePath.EofIsFinal` | hw3/mysock_api.c:222-223 | once the flag is set nothing is read in the rest of any run |
| `WindowRuns.ZeroReadLosesData` | hw3/mysock_api.c:225-230 | a reachable state with data waiting in which a read of zero bytes sets the flag, and no continuation reads the data |
| `WindowRuns.BufferNotEmptied` | hw3/transport.c:1105-1124 | a reachable state with the window full, a FIN waiting and an acknowledgement of everything in flight on its way, which leaves the FIN in the buffer |
| `WholePath.ReadIsTrue` | hw3/mysock_api.c:212-233 | the recorded history of an end's reads is the concatenation of the results of myread along the run |
| `WholePath.WrittenIsTrue` | hw3/mysock_api.c:198-210 | the recorded history of its writes is the concatenation of the buffers given to mywrite |
| `SegmentLists.SegmentList.InsertSegment` | hw3/transport.c:242-316 | the loop over linked nodes, with gaps filled before nodes and at the tail, turns the list into the merge of list and segment; the node memory stays the list's own |
| `SegmentLists.SegmentList.InsertBeforeNode` | hw3/transport.c:192-215 | a new node is linked in before the target, wherever in the list that is |
| `SegmentLists.SegmentList.InsertTail` | hw3/transport.c:217-239 | a new node is linked in at the end |
| `SegmentLists.SegmentList.DequeueAcked` | hw3/transport.c:409-421 | the loop drops exactly the leading segments that the acknowledgement covers |
| `SegmentLists.SegmentList.Packets` | hw3/transport.c:422-438 | the walk emits one packet for each node, in list order |
| `PacketQueues.PacketQueue.EnqueueBuffer` | hw3/mysock.c:133-175 | a packet is linked in at the tail |
| `PacketQueues.PacketQueue.DequeueBuffer` | hw3/mysock.c:177-237 | the front of the head packet is removed, up to max_len bytes; what is left of it stays, or is lost when partial removal is off |
| `Transport.Mysock.MyRead` | hw3/mysock_api.c:212-233 | a read takes the front of the first chunk, keeps the rest, and sets the end-of-file flag exactly when it returns nothing |
| `Transport.Mysock.MyWrite` | hw3/mysock_api.c:198-210 | all bytes are queued as one chunk |
| `Transport.Mysock.MyClose` | hw3/mysock_api.c:161-169 | the close request is set |
| `Transport.Mysock.ForceEndOfFile` | hw3/mysock.c:394-397 | an empty packet is queued when the transport thread ends |
| `Transport.Context.ControlPass` | hw3/transport.c:849-898 | one pass of the loop over the fields, buffers and queues computes Protocol.Wake or Protocol.TimedOut: new state, packets sent in order, events raised |
| `Transport.Context.ServeEvents` | hw3/transport.c:875-889 | the three handlers in their order, on what was ready when the wait returned |
| `Transport.Context.ReadyEvents` | hw3/stcp_api.c:63-126 | which events are ready; a close request only once the application's data has been taken, regardless of the window, and it is then cleared |
| `Transport.Context.HandleAppData` | hw3/transport.c:901-981 | sends and buffers up to a window's or a segment's worth of the first chunk |
| `Transport.Context.HandleAppClose` | hw3/transport.c:1018-1055 | sends and buffers a FIN, or marks it as waiting; state transition |
| `Transport.Context.HandleAckFromPeer` | hw3/transport.c:1084-1134 | ignores what does not move send_base inside the window, otherwise releases, sends a waiting FIN, and reports the own FIN acknowledged |
| `Transport.Context.ResendSendBuffer` | hw3/transport.c:422-438 | sends every buffered segment again |
| `Transport.Context.HandleTimeout` | hw3/transport.c:1057-1082 | gives up after five resends, otherwise resends and counts |
| `Transport.Context.CutToWindow` | hw3/transport.c:1169-1196 | the two cuts, in 32-bit arithmetic, are the clamp |
| `Transport.Context.FlushInOrder` | hw3/transport.c:353-383 | the loop over the linked list is the flush: chunks passed up in order, receive_next, FIN |
| `Transport.Context.HandleIncomingSegment` | hw3/transport.c:1136-1208 | old segments are acknowledged, too new ones dropped, others clamped, merged, flushed and acknowledged |
| `Transport.Context.HandleNetworkData` | hw3/transport.c:983-1016 | first the acknowledgement, then data or FIN |
| `Transport.PassRoom` | hw3/transport.c:863-864 | each stage of a pass leaves the room in 32 bits that the next one requires |
| `Network.NothingInvented` | hw3/network.c:25-68 | at any moment of any run, for all dice, whatever reached the wire had been handed over before, and stays on the wire |
| `Network.AnyNumberOfTimes` | hw3/network.c:48-68 | a packet handed over once may reach the wire any number of times, in place of later ones |
| `Network.Delivers` | hw3/network.c:37-81 | a reliable network, and an unreliable one on rolls of 4 and above, puts exactly the packets given on the wire, in order |
| `Network.Contribution` | hw3/network.c:39-78 | what each further packet adds to the wire in a run: itself, twice on roll 1, nothing on rolls 0 and 2, and on roll 3 the packet held last, if any |
| `Network.NetworkContext.Send` | hw3/network.c:25-68 | drop, duplicate, hold in the copy buffer, replay what is held, or send, as the dice say |
| `NetworkRuns.DeliveredMayArrive` | hw3/network.c:25-68 | whatever the network layer, as the dice fall, lets through of what an end hands over in a run is a packet that the peer's control loop may be given at the end of that run, as long as it still runs |
| `BacklogCount.CountOf` | hw3/connection_demux.c:113-216 | in every interleaving of the thread that takes packets and the one that accepts the count is, in 32 bits, the number of slots it should be plus what stores have overwritten; at rest it is the number of occupied slots if and only if that sums to 0 |
| `BacklogCount.BacklogInvariant` | hw3/connection_demux.c:142-304 | as long as no store of the count overwrites the other thread's, the count is the number of slots it should be, stays within backlog + 1, no assertion fails at any possible step, and the queue is sound whenever both threads are at rest |
| `BacklogCount.LockSuffices` | hw3/connection_demux.c:201-216 | if neither thread loads the count while the other is between load and store, no store overwrites anything |
| `BacklogRuns.SlotsStaySound` | hw3/connection_demux.c:142-304 | in every interleaving completed entries are distinct occupied slots, occupied slots have distinct peers and descriptors in use, and the assertions about slots hold at any possible step |
| `BacklogRuns.AcceptOrder` | hw3/connection_demux.c:74-118 | in every interleaving connections come out in the order in which their handshakes ended, none twice, none left out |
| `BacklogRuns.StepKeeps` | hw3/connection_demux.c:74-304 | every step of either thread keeps the invariant of the slots, and the assertions about slots hold where it is taken |
| `BacklogRaces.EnqueueAlone` | hw3/connection_demux.c:142-258 | taken one after the other, the steps of the thread that takes a packet compute the specified queue |
| `BacklogRaces.AcceptAlone` | hw3/connection_demux.c:74-118 | so do the steps of the accepting thread |
| `BacklogRaces.AcceptFails` | hw3/connection_demux.c:113-114 | a run that loses an increment and then fails the assertion that the count is above zero |
| `BacklogRaces.SearchFails` | hw3/connection_demux.c:192-201 | a run that loses an increment and then fails the assertion that a free slot is found |
| `BacklogRaces.RequestRefused` | hw3/connection_demux.c:192-201 | a run that loses a decrement and then refuses a request although one of two slots is free |
| `BacklogRaces.RefusedForEver` | hw3/connection_demux.c:192-201 | once accepting everything would leave the count at the number of slots or above, no run ever queues a connection again |
| `BacklogRaces.ListenerDies` | hw3/connection_demux.c:210-219 | a run that loses an increment and then gives a slot back for want of a descriptor, so that the count wraps and no run after it queues a connection |
| `Backlog.EnqueueOutcome` | hw3/connection_demux.c:142-258 | a request is queued exactly when it is a SYN of a peer not waiting yet, a slot is free and a descriptor is to be had; otherwise nothing changes; the free-slot assertion never fails |
| `Backlog.QueuedIsWaiting` | hw3/connection_demux.c:176-232 | a queued request makes exactly its peer a waiting one besides those that were |
| `Backlog.ConnectionRoundTrip` | hw3/connection_demux.c:74-304 | queueing, completing and accepting a connection returns its descriptor and leaves the queue as it was |
| `Backlog.RoomIsFreeSlot` | hw3/connection_demux.c:192-202 | fewer occupied slots than slots means that the search finds a free one, and conversely |
| `ListenQueues.ListenQueue.Enqueue` | hw3/connection_demux.c:142-258 | the two scans of the slot array and the count updates compute the specified queue |
| `ListenQueues.ListenQueue.Complete` | hw3/connection_demux.c:260-304 | the slot with the descriptor goes to the end of the completed queue |
| `ListenQueues.ListenQueue.Dequeue` | hw3/connection_demux.c:74-118 | the oldest completed slot is freed and its descriptor returned |
| `ListenQueues.ListenQueue.constructor` | hw3/connection_demux.c:310-357 | the first mylisten gives backlog + 1 free slots, in unsigned 32 bits |
| `Checksum.OctetCounts` | hw4/SimpleRouter/router/sr_utils.c:8-20 | each octet counts 256 times at an even offset and once at an odd one, the other way round on a little-endian host, whatever the others are |
| `Checksum.OddIsPadded` | hw3/tcp_sum.c:55-60 | an odd octet at the end counts as if a zero octet followed it, in either byte order |
| `Checksum.Rfc1071Example` | hw4/SimpleRouter/router/sr_utils.c:8-20 | the example of section 3 of RFC 1071: the octets stored are 22 0d |
| `Checksum.TcpSum` | hw3/tcp_sum.c:14-67 | what is covered: both addresses, the protocol 6, the length of header and data, and all of the packet but the field at offset 16 |
| `Checksum.FoldIsResidue` | hw4/SimpleRouter/router/sr_utils.c:8-20 | folding keeps the sum modulo 65535, and gives 0 only for 0 |
| `Checksum.TwoStepsFold` | hw3/tcp_sum.c:61-63 | two fixed folding steps are full folding for every sum of 31 bits |
| `Checksum.ByteOrderIndependence` | hw3/tcp_sum.c:31-66 | summing in the host's order gives the octet-swapped sum, so the same two octets are stored on every host |
| `Checksum.StoredSumsToOnes` | hw4/SimpleRouter/router/sr_utils.c:8-20 | stored in a zeroed field at an even offset the checksum makes the whole one's-complement sum 0xffff, with or without 0xffff in place of 0 |
| `Checksum.RecomputeAcceptsUnlessZero` | hw4/SimpleRouter/router/sr_router.c:167-172 | recompute-and-compare accepts a header that is not all zeros if and only if its sum is 0xffff and its field is not 0 |
| `Checksum.ZeroFieldRefused` | hw4/SimpleRouter/router/sr_router.c:163-172 | a correct header of version 4 and 20 octets whose field at offset 10 is 0, and which is refused |
| `Checksum.Cksum` | hw4/SimpleRouter/router/sr_utils.c:8-20 | the number returned, stored by a host of either byte order, is the non-zero checksum of RFC 1071 of any data whose sum fits 32 bits, padded with a zero octet if odd; wrap-around is modelled otherwise |
| `Checksum.TcpChecksum` | hw3/tcp_sum.c:14-67 | the number returned, stored by a host of either byte order, is the checksum of RFC 1071 of pseudo header and packet with the field taken as zero, padded with a zero octet if odd |
| `Checksum.SetThenVerify` | hw3/tcp_sum.c:70-106 | a segment with its checksum set is found correct by any host |
| `Checksum.PacketsFit` | hw3/tcp_sum.c:28-59 | for every packet of at most 1500 octets the signed 32-bit accumulator does not overflow |
| `Sha1Streaming.DigestOfPortions` | hw4/SimpleRouter/router/sha1.c:71-370 | however a message is split into portions, reset, input and result give the digest of FIPS 180-4 of the whole; it fails exactly from 2^64 bits on |
| `Sha1Streaming.SHA1Context.Input` | hw4/SimpleRouter/router/sha1.c:143-188 | a portion is appended to the message; the context is corrupted exactly on input after the result or when the 64-bit length overflows |
| `Sha1Streaming.SHA1Context.PadMessage` | hw4/SimpleRouter/router/sha1.c:326-370 | one or two blocks of padding give the digest of section 5.1.1 and 6.1.2 |
| `Sha1Streaming.SHA1Context.ProcessMessageBlock` | hw4/SimpleRouter/router/sha1.c:207-307 | the block in the buffer is compressed into the digest |
| `Sha1Streaming.SHA1Context.Result` | hw4/SimpleRouter/router/sha1.c:104-126 | the digest of everything taken in, computed once |
| `Sha1Streaming.SHA1Context.CountOctet` | hw4/SimpleRouter/router/sha1.c:163-176 | the carry from the low to the high length word, and overflow exactly at 2^64 bits |
| `Sha1Streaming.RunRounds` | hw4/SimpleRouter/router/sha1.c:243-287 | the four loops of twenty rounds are the eighty rounds of the standard |
| `Sha1Streaming.ChAsOr` | hw4/SimpleRouter/router/sha1.c:245-246 | the first loop's choice, written with or, is the standard's Ch |
| `Sha1Streaming.MajAsOr` | hw4/SimpleRouter/router/sha1.c:268-269 | the third loop's majority, written with or, is the standard's Maj |
| `Sha1Streaming.PadShort` | hw4/SimpleRouter/router/sha1.c:349-356 | padding in one block when at most 55 octets are left over |
| `Sha1Streaming.PadLong` | hw4/SimpleRouter/router/sha1.c:334-348 | padding over two blocks otherwise |
| `Sha1Streaming.LengthInTwoWords` | hw4/SimpleRouter/router/sha1.c:358-368 | the octets of the two 32-bit length words are the 64-bit length field |
| `Sha1Example.DigestOfAbc` | hw4/SimpleRouter/router/sha1.c:71-307 | the digest of "abc" is a9993e36 4706816a ba3e2571 7850c26c 9cd0d89d |
| `Sha1Standard.ZeroCountIsLeast` | hw4/SimpleRouter/router/sha1.c:326-358 | the number of zero octets is the least that fills a block |
| `Sha1Standard.ProcessBlock` | hw4/SimpleRouter/router/sha1.c:178-181 | processing whole blocks as they fill is processing the message |
| `ArpGuarantees.FreedOnlyByFatalStep` | hw4/SimpleRouter/router/sr_arpcache.c:22-172 | in any run of the packet thread and the sweep no thread ever has a freed request in hand, nor the walk as its next, if and only if no step gives up a request in use elsewhere: by the other thread, by a call further out, or as the walk's next |
| `ArpRaces.FreedWhileInHand` | hw4/SimpleRouter/router/sr_router.c:490-493 | a run in which the sweep gives up and frees the request that the packet thread has just queued a frame on and is about to handle |
| `ArpRaces.NextFreed` | hw4/SimpleRouter/router/sr_arpcache.c:22-167 | a run in which the message about a request that the sweep gives up leads to the walk's next request being given up and freed, and the walk is to go on with it |
| `ArpGuarantees.PendingRequests` | hw4/SimpleRouter/router/sr_arpcache.c:252-406 | in every run without such a step pending requests have distinct addresses that the cache does not know, each holds a frame, the source's assertion holds at any step, and no request was sent more than five times if neither thread acted on an outdated test |
| `ArpGuarantees.FramesConserved` | hw4/SimpleRouter/router/sr_router.c:639-662 | in every run without such a step each frame queued for an address is in exactly one place: in one batch that left, batches in order of arrival and each newest first, or waiting |
| `ArpGuarantees.PatienceIff` | hw4/SimpleRouter/router/sr_arpcache.c:63-67 | in such a run frames are given up only after five requests since the last batch, a sixth is never sent, and each comes at least a second after the one before, if and only if neither thread ever acts on a test that no longer holds |
| `ArpOvertaking.OvertakenIff` | hw4/SimpleRouter/router/sr_arpcache.c:63-180 | in such a run whose clock does not go back, of either thread between its test and its sending again: the test no longer holds if and only if the other thread has meanwhile sent the same request again, on a reading less than a second before or as the last of five |
| `ArpRaces.SixthRequest` | hw4/SimpleRouter/router/sr_arpcache.c:174-178 | for either order of the two threads a run, free of misused memory, in which a sixth request is sent, in the same second as the fifth |
| `ArpGuarantees.WellAddressedAlways` | hw4/SimpleRouter/router/sr_router.c:479-486 | whatever is sent goes to an address learned from an earlier reply |
| `ArpGuarantees.AnswersAreRecent` | hw4/SimpleRouter/router/sr_arpcache.c:469-486 | right after a sweep has expired entries, whatever the cache answers was learned from a reply at most fifteen seconds before |
| `ArpLearning.ReplyIsLearned` | hw4/SimpleRouter/router/sr_arpcache.c:340-358 | after a reply the cache answers with its address if and only if an entry was free and no later entry for the same address was valid; all other answers are as before |
| `ArpLearning.UnknownIsLearned` | hw4/SimpleRouter/router/sr_arpcache.c:340-358 | an unknown address with an entry free is answered with what the reply says |
| `ArpLearning.KnownForFifteenSeconds` | hw4/SimpleRouter/router/sr_arpcache.c:469-486 | in every run without a fatal step an address so learned is answered with, until the next reply for it, exactly as long as no sweep has begun more than fifteen seconds later; there are 100 entries |
| `ArpLearning.KnownIsPassed` | hw4/SimpleRouter/router/sr_router.c:479-493 | just so long a frame for the address leaves at once for that hardware address; after that it goes on to be queued |
| `ArpLearning.FrameIsQueued` | hw4/SimpleRouter/router/sr_arpcache.c:252-308 | a frame queued joins in front of the one request for its address, a new request has not been sent, a frame of no bytes only makes the request, and no other address is concerned |
| `ArpLearning.SweepRequestByRequest` | hw4/SimpleRouter/router/sr_arpcache.c:22-207 | a walk leaves each request sent less than a second ago alone, sends those sent fewer than five times again, gives the others up, in the order of the queue and independently of each other |
| `ArpThreads.StepGoes` | hw4/SimpleRouter/router/sr_arpcache.c:22-406 | every step of either thread keeps the books, frees a request in use exactly if it is such a step, and keeps the rules on trying exactly unless it acts on an outdated test |
| `ArpRuns.ActedKeeps` | hw4/SimpleRouter/router/sr_arpcache.c:66-207 | giving a request up, or sending it again, keeps every book whatever led to it |
| `ArpSweeps.UndisturbedSweep` | hw4/SimpleRouter/router/sr_arpcache.c:22-34 | the steps of a sweep that sends no message and that the other thread leaves alone come to the specified walk over all requests |
| `ArpSweeps.SweptEach` | hw4/SimpleRouter/router/sr_arpcache.c:22-34 | that walk handles each request exactly once, also when others are removed on the way |
| `ArpThreads.EnqueuedKeeps` | hw4/SimpleRouter/router/sr_arpcache.c:252-308 | queueing a frame keeps every book |
| `ArpThreads.AnsweredKeeps` | hw4/SimpleRouter/router/sr_arpcache.c:315-358 | a reply keeps every book and leaves no request for its address |
| `ArpCache.ArpTable.LookUp` | hw4/SimpleRouter/router/sr_arpcache.c:217-243 | the last valid entry for the address |
| `ArpCache.ArpTable.QueueRequest` | hw4/SimpleRouter/router/sr_arpcache.c:252-308 | the frame is linked in at the head of its request's list, a new request at the end of the queue |
| `ArpCache.ArpTable.HandleRequest` | hw4/SimpleRouter/router/sr_arpcache.c:63-207 | a request due is destroyed after five tries, otherwise sent again on its first frame's interface |
| `ArpCache.ArpTable.QueueAndAsk` | hw4/SimpleRouter/router/sr_router.c:490-493 | the two calls after a failed look-up, when nothing comes in between them |
| `ArpCache.ArpTable.DestroyRequest` | hw4/SimpleRouter/router/sr_arpcache.c:363-388 | the walk to the node finds it, and it is unlinked wherever in the queue it is |
| `ArpCache.ArpTable.Insert` | hw4/SimpleRouter/router/sr_arpcache.c:315-358 | the request for the address is unlinked and returned, the mapping stored in the first invalid entry if there is one |
| `ArpCache.ArpTable.HandleReply` | hw4/SimpleRouter/router/sr_router.c:639-662 | every waiting frame is sent to the reply's hardware address, in list order |
| `ArpCache.ArpTable.ExpireEntries` | hw4/SimpleRouter/router/sr_arpcache.c:472-482 | entries older than 15 seconds become invalid, others stay |
| `ArpCache.ArpTable.SweepRequests` | hw4/SimpleRouter/router/sr_arpcache.c:22-34 | the walk over the linked requests, the next one being looked up before one may be freed, is the specified walk |
| `Routing.FindLongestPrefixMatch` | hw4/SimpleRouter/router/sr_router.c:683-705 | the scan keeps the first of the matching routes with the numerically largest mask above zero |
| `Routing.FindsLongestPrefix` | hw4/SimpleRouter/router/sr_router.c:683-705 | for contiguous masks: none exactly when no route with a non-zero mask matches, otherwise the earliest route with the longest matching prefix (section 5.2.4.3 of RFC 1812) |
| `Routing.DefaultRouteIsIgnored` | hw4/SimpleRouter/router/sr_router.c:687-701 | the lookup returns the longest match if and only if that is no default route |
| `Routing.OnlyDefaultRoute` | hw4/SimpleRouter/router/sr_router.c:687-701 | a table whose longest match, for any address, is a default route, and whose lookup finds nothing |
| `Routing.MaskOrder` | hw4/SimpleRouter/router/sr_router.c:697 | for contiguous masks numeric order is prefix-length order |
| `Routing.MatchIsPrefix` | hw4/SimpleRouter/router/sr_router.c:696 | matching under a contiguous mask is agreeing on its first bits |

## Left out

- The handshake (hw3/transport.c:683-840): runs start in ESTABLISHED. A passive end takes its starting point from
  whichever valid packet completes the handshake, so the assumption is that this packet carries the peer's initial
  number plus one.
- Round-trip estimation, timer values and clocks (hw3/transport.c:450-543): a timeout may happen whenever data is in
  flight.
- That a close always completes: the code gives no grounds for it (see above).
- Malformed headers, the packet log, real sockets, host names and files: input and output around the protocol.
  A packet is taken to arrive as it was sent, its checksum being verified below the transport.
- Threads and memory: in the transport each operation on a queue or context is one step; allocation and freeing are
  modelled only for ARP requests.
  In particular the application reads nothing after `myclose`, which frees the queues; what is delivered counts what
  waits there.
- Transport.Mysock.MyClose: sets the request only; waking the transport thread, waiting for it to end and freeing the
  context are not modelled.
- Between the two statements that invalidate a slot it reads as descriptor 0 (hw3/connection_demux.c:55-59), and a new
  slot has its descriptor before its peer (lines 210-229): either pair is one step in BacklogRuns. Its runs have one
  thread that takes packets, as a socket has, and finding the slot of a completed handshake is one step with appending
  it, since the slot stays where it is until accepted.
- `insert_segment_to_receive_buffer` and `print_receive_buffer` (hw3/transport.c:174-190, 319-350): not used.
- A second `mylisten` on the same socket, and closing a listening socket: the backlog theorems are about one `mylisten`.
- The hash table of listening sockets (hw3/mysock_hash.h): the backlog is that of one listening socket.
- The content of the ICMP messages sent for expired ARP requests (hw4/SimpleRouter/router/sr_arpcache.c:67-168), and
  which frames cause one: in the runs a thread that gives a request up may look up, queue and handle any number of frames for
  any addresses before it frees the request.
- The increment of `times_sent` itself (hw4/SimpleRouter/router/sr_arpcache.c:176-177): setting `sent`, incrementing
  `times_sent` and sending are one step of the runs, and so is a test, so an increment that the two threads overwrite
  for each other is not covered. ArpOvertaking.OvertakenIff and ArpGuarantees.PatienceIff are stated about these steps.
- ArpCache.ArpTable.HandleRequest: leaves out the messages about the frames of a request given up; the runs have them.
- ArpCache.ArpTable.SweepRequests: the same, and with them that the next request may be freed, which is the subject of
  ArpGuarantees.FreedOnlyByFatalStep and ArpRaces.NextFreed.
- ArpCache.ArpTable.QueueAndAsk: says what the two calls do undisturbed; what comes in between is the subject of
  ArpGuarantees, ArpOvertaking and ArpRaces.
- What happens after a freed ARP request has been used: it is undefined, and the runs say nothing about it.
- Packet building in `sr_handlepacket`, loading of the routing table, and the interface list: field assignments and
  parsing.
- The linked list of completed connections is a sequence here: linking in place is not modelled for it, as it is for
  the other lists.
- hw1, hw2, the Python controller scripts and the duplicate submission folders.
- Wrap-around of sequence numbers: the methods below require that the numbers they form stay below 2^32, where the
  source would go on with wrapped ones and its plain comparisons would no longer mean what they are for.
  Guarantees.NoWrapAround shows the requirement of every state and packet of a run under the stated hypothesis.
- SegmentLists.SegmentList.InsertSegment: requires the segment and all nodes to end below 2^32.
- SegmentLists.SegmentList.DequeueAcked: requires all nodes to end below 2^32.
- Transport.Context.ControlPass: requires 32-bit room for the state and the packet.
- Transport.Context.ServeEvents: requires 32-bit room for the state and the packet.
- Transport.Context.HandleAppData: requires 32-bit room for the window and the data waiting.
- Transport.Context.HandleAppClose: requires 32-bit room for the window.
- Transport.Context.HandleAckFromPeer: requires 32-bit room for the window.
- Transport.Context.CutToWindow: requires the segment and the window to end below 2^32.
- Transport.Context.FlushInOrder: requires the buffered segments to end below 2^32.
- Transport.Context.HandleIncomingSegment: requires the segment and the window to end below 2^32. It also requires at
  most 536 bytes of data, which is what a node of the list has room for.
- Transport.Context.HandleNetworkData: requires 32-bit room for the state and the packet.
- Checksum.TcpChecksum: requires that the sum fits the signed accumulator, whose overflow C leaves undefined.

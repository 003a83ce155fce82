# Verification of the typenet protocol stack

A Dafny model of the parts of typenet that decide what goes on the wire, with proofs of what they
promise. It covers the passive-open TCP endpoint (sequence-number arithmetic, reassembly,
retransmission queue, send buffer, all seven connection states, the connection table and the engine
around it), the Internet checksum, and the encoding of TCP, UDP, ICMP echo and IPv4.

`dafny verify dfyconfig.toml` checks everything.

## How it is built

Every operation exists twice. A *function on values* says what it does to a connection (`Conn`), a
table (`Table`) or an engine (`EngineState`); a *class or method* updates fields in place the way the
program does and is proved to compute that function. Properties of single steps and of whole runs
are lemmas about the functions.

What a segment does is defined once more, independently of the handlers: `OneStep.StepIs` makes one
pass over the fields of a connection (acknowledge, receive, send, reply) that is the same for all
states and speaks of distances in sequence space only. `OneStep.StepIsExactly` proves that the
handlers of all seven states do exactly that. In the same way `Deadlines` says by the clock what a
timeout does, and the `ParsedExactly` lemmas say in numbers which bytes are accepted.

| files | content |
|---|---|
| `seq_space`, `segment`, `pending_segment`, `reassembly`, `state` | 32-bit circular arithmetic and its agreement with unbounded positions; segments; the retransmission queue; the reassembly buffer; the fields of a connection |
| `send_info`, `handlers` | the state handlers, as functions and in place |
| `in_flight`, `send_side`, `receive_side`, `transitions`, `timers` | what one arriving segment, or one timeout, does to the invariants of a connection |
| `one_step` | what one segment does, field by field, and that the handlers do it |
| `runs`, `coverage`, `theorems` | runs of one connection with a history of what was accepted, delivered, sequenced and emitted; the main theorems |
| `every_step`, `deadlines` | what one segment and one timeout do, of every connection a run can reach |
| `clients` | the same for a client that keeps to the protocol, and the progress it makes |
| `acks`, `handshake`, `active_close`, `stalls`, `resets`, `retries`, `windows`, `state_diagram` | what runs acknowledge, queue, leave unsent, reset and repeat, each with its exact condition; when a connection moves or is removed |
| `connections`, `engine`, `table_runs` | the keyed table, the engine, and the run that each table entry is in |
| `checksum`, `wire`, `tcp_wire`, `udp`, `icmp`, `ipv4`, `packet` | the checksums, and the bytes of a packet |
| `packet_runs` | a running engine as the network sees it, packets in and packets out |

A run (`Runs.Run`) is any sequence, of any length, of arriving segments, timeouts at any clock
reading and active closes, after a SYN with any sequence number was answered with any initial
sequence number. Nothing is assumed about what arrives, except where a theorem names one of two
hypotheses:

- **No slip** (`Runs.Sound`, `SendSide.Slip`). With nothing outstanding, the test
  SND.UNA <= SEG.ACK <= SND.NXT also lets SND.UNA + 2^31 through, the case section 3.2 of RFC 1982
  leaves undefined. `SendSide.ArrivalSendsExactly` proves that this is the only segment, in any
  state, after which the send side is no longer sound, and says exactly when handling it fails;
  `Theorems.AntipodeSlips` is a reachable example. A client that acknowledges only what it was sent
  never slips (`Clients.AckOfSentIsSound`), so for it this is no hypothesis (`Clients.ClientEcho`).
- **A stream** (`Runs.Faithful`, `ReceiveSide.FromStream`). What the peer sends is part of some byte
  stream, at its true offset, and not from a whole wrap of sequence space away. Loss, repetition,
  reordering and re-segmentation are unrestricted. `Clients.StaleIsAccepted` shows that the last
  condition cannot be dropped.

## What the code does that its texts do not say

- Only plain acknowledgments in ESTABLISHED are guarded against SEG.ACK beyond SND.NXT. A FIN with
  SEG.ACK = SND.UNA + 2^31 on an idle connection moves SND.UNA past SND.NXT and makes handling
  return an error, and the connection stays in the table in that state
  (`Theorems.AntipodeSlips`).
- An active close sends its FIN at once; bytes still in the send buffer are never sent
  (`ActiveCloses.ActiveCloseLoses`). All of the application's data goes out if and only if that
  buffer was empty (`ActiveCloses.ActiveCloseExactly`); a passive close sends its FIN only behind all
  of it (`Theorems.PassiveEcho`).
- A SYN in SYN-RECEIVED is answered without looking at its sequence number. If that is not the one
  the connection was opened with, the SYN-ACK acknowledges something other than RCV.NXT, stays
  pending, and can even complete the handshake with the two sides a gap apart
  (`Acknowledgments.StraySynIsAnswered`). Nothing else ever acknowledges what was not accepted
  (`Acknowledgments.EmittedAcksAreHeld`).
- Each SYN in SYN-RECEIVED also makes another SYN-ACK pending, for the same sequence number. The
  queue is a chain without overlap if and only if the connection is synchronized or no such SYN has
  come (`Handshakes.QueueIsChainExactly`, `Handshakes.RepeatedSynOverlaps`).
- In FIN-WAIT-1, in-order data that also acknowledges our FIN is taken as data only: the state stays,
  with nothing left to retransmit, and an older FIN then leads to CLOSING in the same condition. No
  timer ends either (`ActiveCloses.NothingPendingExactly`, `ActiveCloses.DataAcknowledgesFin`).
- In ESTABLISHED, data or a FIN ahead of a gap has its acknowledgment and window acted on, but never
  lets the send buffer drain. If it acknowledges all that is outstanding, what is queued waits with
  the window open and no timer to send it. That is the only way to get there, and only in
  ESTABLISHED (`Stalls.QueuedAndIdleExactly`, `Stalls.AheadStrandsByte`).
- In FIN-WAIT-1 and FIN-WAIT-2 data or a FIN that has overtaken another segment is answered by a
  reset, even though its client has done nothing wrong. In the other synchronized states that never
  happens (`Resets.ClientResetExactly`, `Resets.ReorderedDataIsReset`).
- The writer never emits TCP options, so a segment whose data offset says otherwise parses back equal
  only if it has no payload (`TcpWire.TcpRoundTrip`).
- A header length field below 20 bytes is accepted, and part of the IPv4 header then counts as
  payload. Replies to datagrams and echo requests are as long as that payload, so they always fit a
  packet if the field is 20 or more, and need not otherwise (`Packet.ReplyFitsExactly`,
  `Packet.ShortHeaderOverflows`).
- The 32-bit checksum that does not check for overflow is right beyond its documented size too, as
  long as the carries it loses cancel out (`Checksum.NaiveWrappingExact`).

## Model

| member | source | states |
|---|---|---|
| Theorems.PassiveEcho | stack/src/protocol/tcp/send_info.rs:438-493 | end to end: once LAST-ACK is reached, and however the run goes on, the emitted segments carry every byte of the response to the whole client stream at its place and nothing else, and our FIN is emitted at ISS + 1 + its length |
| OneStep.StepIsExactly | stack/src/protocol/tcp/send_info.rs:136-671 | the handlers of all seven states do exactly, in every field of the connection, what is accepted, delivered and replied, what one uniform pass (acknowledge, receive, send, reply) does that is written field by field and in distances only; for every segment on every connection whose invariants hold, slips included |
| EverySteps.EveryStepIs | stack/src/protocol/tcp/send_info.rs:136-671 | in every run, every segment does exactly what the uniform pass says |
| Theorems.DeliveredIsPrefix | stack/src/protocol/tcp/send_info.rs:229-291 | in every run, finished or not, the application has been handed a prefix of the client's stream, each byte once and in order; while the connection lives RCV.NXT counts what was accepted, and the FIN is consumed only after the whole stream |
| Theorems.SentIsConserved | stack/src/protocol/tcp/send_info.rs:418-493 | in every run sequenced bytes followed by queued bytes are all the application appended; SND.NXT counts SYN, bytes and FIN once each |
| Theorems.EverythingSentIsEmitted | stack/src/protocol/tcp/send_info.rs:418-493 | in every run each sequenced byte is carried, at its place, by some emitted segment, and our FIN once sent by one at the end |
| Theorems.EmittedIsStream | stack/src/protocol/tcp/connections.rs:180-188 | every emitted byte, first time or again, is byte k of the outgoing stream at ISS + 1 + k; a FIN only behind the last byte |
| Theorems.EmittedNeverDisagree | stack/src/protocol/tcp/connections.rs:180-188 | emitted bytes with the same sequence number are the same byte while the stream is no longer than sequence space, and beyond that whenever they stand for the same offset |
| Theorems.BufferedLieAhead | stack/src/protocol/tcp/reassembly.rs:12-21 | in every run, in ESTABLISHED, buffered starts are distinct and strictly inside the window |
| Theorems.LastAckIsFinal | stack/src/protocol/tcp/send_info.rs:650-671 | from LAST-ACK on nothing more is ever sequenced |
| Theorems.EchoRepeats | server/src/application.rs:38-43 | the echo response is the stream itself |
| Theorems.ShoutCapitalizes | server/src/application.rs:38-43 | the shout response leaves no lower-case letter and alters nothing else |
| Theorems.PendingTilesFlight | stack/src/protocol/tcp/pending_segment.rs:36-70 | in every synchronized state the queue is a gapless chain from SND.UNA to SND.NXT, empty exactly if they are equal, and at most 65536 sequence numbers are in flight |
| Theorems.HandlingStaysInWindow | stack/src/protocol/tcp/state.rs:321-333 | in every run handling never fails, and new data fits a packet and lies within SND.UNA + SND.WND |
| Theorems.RemovedGracefully | stack/src/protocol/tcp/connections.rs:173-178 | in every run a connection leaves only by an in-order reset, exhausted retries, or a finished close |
| Theorems.RemovedWithWholeStream | stack/src/protocol/tcp/send_info.rs:497-671 | a finished close means the client's whole stream was accepted |
| Theorems.AlwaysPending | stack/src/protocol/tcp/send_info.rs:481-482 | SYN-RECEIVED and LAST-ACK always have something to retransmit |
| Theorems.SilentPeerRemoved | stack/src/protocol/tcp/connections.rs:154-192 | in every run a silent peer's connection with anything pending is removed after more due timeouts than its segments have retries |
| Theorems.ConnectionsMoveForward | stack/src/protocol/tcp/state.rs:247-251 | whatever the event, states only advance and frontiers behind a FIN stand still |
| Theorems.AntipodeSlips | stack/src/protocol/tcp/send_info.rs:388-397 | a reachable connection on which the antipode is acted on and handling fails |
| Theorems.SilentPeerRemovedBy | stack/src/protocol/tcp/connections.rs:154-192 | by the clock: with a silent peer, waking at the deadlines, a connection with anything pending (SYN-RECEIVED and LAST-ACK always) is removed within (retries left + 1) longest timeouts; after every wake before that there is a next deadline |
| OneStep.RejectedExactly | stack/src/protocol/tcp/send_info.rs:156-193 | segments that are not acted on change nothing, and exactly which get the challenge acknowledgment, which a reset, which nothing |
| OneStep.ActiveCloseIs | stack/src/protocol/tcp/connections.rs:196-222 | an active close in every field: a bare FIN at SND.NXT, pending from then on, the queue untouched |
| EverySteps.SendsAllItMay | stack/src/protocol/tcp/state.rs:315-334 | in every run a step sends if and only if it acts on a segment that lets the queue drain, and then as much as possible: less than a full packet only if nothing stays queued or the window is used up |
| EverySteps.WaitingFinIsAhead | stack/src/protocol/tcp/reassembly.rs:26-36 | in every run a FIN recorded in ESTABLISHED stands at the end of the client's stream, strictly ahead of RCV.NXT, and something is still missing |
| EverySteps.WaitingFinIsTaken | stack/src/protocol/tcp/send_info.rs:350-373 | with a FIN recorded, in-order data completes the stream if and only if the FIN is consumed with it: RCV.NXT moves one further and the connection is in CLOSE-WAIT or LAST-ACK |
| Clients.EchoCompletes | stack/src/protocol/tcp/send_info.rs:197-671 | progress: from any reachable point of a passive close with the window open, in particular right after any SYN, a client that sends the rest of its stream byte by byte, its FIN, and then acknowledgments brings the connection to LAST-ACK with its whole stream answered within 2n + 2 segments for n bytes, and the next acknowledgment removes it |
| Clients.ClientEcho | stack/src/protocol/tcp/send_info.rs:438-493 | the end-to-end echo in terms of what the client does alone: it sends pieces of its stream and acknowledges only what it was sent |
| Clients.AckOfSentIsSound | stack/src/protocol/tcp/state.rs:262-271 | acknowledging anything that was sent, less than half of sequence space back, never slips |
| Clients.AcksOfSentAreSound | stack/src/protocol/tcp/send_info.rs:136-154 | a run whose acknowledgments are all of what was sent has no slips, so every theorem about reachable connections applies to it |
| Clients.StaleIsAccepted | stack/src/protocol/tcp/send_info.rs:45-56 | why a segment may not come from a whole wrap away: a reachable connection that takes the first byte of the stream, sent again, for the byte that comes 2^32 later |
| PacketRuns.ClientGetsPackets | stack/src/engine.rs:89-97 | the echo from bytes to bytes: parsing the packets a running engine has sent to a client in LAST-ACK that keeps to the protocol gives every byte of the response to its stream at the right place, and the FIN, whatever other bytes came in |
| PacketRuns.PacketsCarrySegments | stack/src/engine.rs:89-133 | in every engine run, whatever bytes come in: what a client can parse of the packets sent to it is, one for one and in order, what its connections have decided to send |
| PacketRuns.OnlyItsOwnEntry | stack/src/engine.rs:89-97 | a packet that does not parse changes nothing and gets no reply, one that is not TCP changes nothing, a TCP packet at most its own entry |
| PacketRuns.RepliesAnswer | stack/src/ipv4_packet.rs:49-76 | every reply goes back over the swapped addresses and ports by the same protocol and says what the application, or the echo, should say; exactly which packets get one, and exactly when handling fails |
| PacketRuns.InputRunIsEngineRun | stack/src/engine.rs:89-97 | a run on packets is the run on the segments parsed from them |
| PacketRuns.ReplyFits | stack/src/protocol/tcp/state.rs:321-331 | no reply of any connection, sound or not, is too long for a packet |
| PacketRuns.EmittedArriveIntact | stack/src/protocol/tcp.rs:100-116 | every segment any run emits fits a packet, and parsing that packet gives it back |
| TableRuns.EntryFollowsRun | stack/src/protocol/tcp/send_info.rs:83-101 | a signal to the engine moves each entry as its own event would, and no entry affects another |
| TableRuns.NewEntryIsOpened | stack/src/protocol/tcp/send_info.rs:109-122 | the only entries that appear are answered SYNs |
| TableRuns.ResendsAreEmissions | stack/src/protocol/tcp/connections.rs:180-188 | what the table sends again for a connection is what its run emits |
| TableRuns.EntryIsItsRun | stack/src/engine.rs:89-133 | in every engine run, from an empty table: the entry under any key is where the run of the signals it has received since its SYN has led; all its client has ever been sent is what went out before that SYN, exactly the segments that run emitted, in order, and, once the entry is gone, bare resets |
| TableRuns.FollowedIsSound | stack/src/engine.rs:89-133 | if no packet of an engine run slips, the run of every entry is without slips, so the theorems about reachable connections apply to it |
| TableRuns.ClientGetsResponse | stack/src/protocol/tcp/send_info.rs:438-493 | the echo seen from a client of a running engine: with its connection in LAST-ACK, the segments sent to it since its SYN carry every byte of the response to its stream at the right place, and the FIN behind it, whatever happens on other connections |
| TableRuns.StepEmits | stack/src/protocol/tcp/connections.rs:154-222 | on each signal the engine sends to a client exactly what its connection's own step emits |
| TableRuns.ReplyGoesBack | stack/src/protocol/tcp.rs:107-115 | a reply is addressed to the client whose segment it answers |
| Deadlines.ResendsBackOff | stack/src/protocol/tcp/connections.rs:173-188 | over every run: between two emissions of the same data or FIN, the first of them the n-th retransmission, at least the initial timeout doubled n times, within the configured range, goes by |
| Deadlines.DueExactly | stack/src/protocol/tcp/pending_segment.rs:45-66 | a segment sent and resent r times, last at u, is due at exactly u plus the initial timeout doubled r times (31 at most), within the range |
| Deadlines.FirstDue | stack/src/protocol/tcp/pending_segment.rs:35-66 | a segment just sent is due exactly one initial timeout later |
| Deadlines.TimeoutIsExactly | stack/src/protocol/tcp/connections.rs:154-192 | a timeout by the clock: removal if and only if a segment whose time has come has no retries left; otherwise exactly the segments whose time has come go out again, once each and in order, and wait from now on with one retry less |
| ActiveCloses.ActiveCloseExactly | stack/src/protocol/tcp/connections.rs:196-222 | after an active close, however the run goes on, the FIN is emitted and what was queued is never sequenced: all of the application's data goes out if and only if the send buffer was empty |
| ActiveCloses.ActiveCloseLoses | stack/src/protocol/tcp/connections.rs:196-222 | a reachable connection on which an active close loses a byte |
| ActiveCloses.FinIsFinal | stack/src/protocol/tcp/send_info.rs:497-671 | behind our FIN nothing more is ever sequenced, in any state |
| ActiveCloses.NothingPendingExactly | stack/src/protocol/tcp/send_info.rs:504-527 | in every run FIN-WAIT-1 or CLOSING has nothing to retransmit if and only if in FIN-WAIT-1 in-order data came with an acknowledgment of our FIN |
| ActiveCloses.NothingPendingWaits | stack/src/protocol/tcp/connections.rs:154-192 | with nothing to retransmit no number of timeouts changes the connection |
| ActiveCloses.DataAcknowledgesFin | stack/src/protocol/tcp/send_info.rs:508-513 | such data and then an old FIN, reaching FIN-WAIT-1 and CLOSING with nothing pending |
| Stalls.QueuedAndIdleExactly | stack/src/protocol/tcp/send_info.rs:375-410 | in every run, in ESTABLISHED and CLOSE-WAIT: data queued, nothing pending and the window open if and only if the last segment acted on lay ahead of a gap and left it so; in CLOSE-WAIT that never happens |
| Stalls.AheadStrandsByte | stack/src/protocol/tcp/send_info.rs:375-382 | such a reachable connection: one byte queued, nothing pending, a window of 1000, and no number of timeouts changes it |
| Stalls.DrainNeverStrands | stack/src/protocol/tcp/state.rs:315-334 | after draining, either the send buffer is empty, or the window is closed, or something is outstanding |
| Handshakes.QueueIsChainExactly | stack/src/protocol/tcp/send_info.rs:210-222 | in every run and state the queue is a gapless chain if and only if the connection is synchronized or no SYN has come in SYN-RECEIVED; each such SYN adds one SYN-ACK |
| Handshakes.RepeatedSynOverlaps | stack/src/protocol/tcp/send_info.rs:210-222 | a repeated SYN, after which two pending segments overlap |
| Handshakes.SynAcksAtMost | stack/src/protocol/tcp/connections.rs:173-188 | in every run SYN-ACKs are emitted at most (1 + SYNs repeated in SYN-RECEIVED) times (1 + allowed retries), and before the handshake completes exactly as often as the pending retry counters say |
| Acknowledgments.RepliesAreCurrent | stack/src/protocol/tcp/send_info.rs:60-74 | a reply other than a bare reset acknowledges RCV.NXT as it stands afterwards if and only if the segment is not a SYN with another sequence number in SYN-RECEIVED; a reset echoes SEG.ACK, changes nothing and never answers a reset |
| Acknowledgments.RetransmissionsRepeat | stack/src/protocol/tcp/pending_segment.rs:77-83 | whatever a timeout emits was emitted before, field for field |
| Acknowledgments.EmittedAcksAreHeld | stack/src/protocol/tcp/send_info.rs:60-63 | in every run no emitted segment acknowledges anything that was not accepted if and only if no SYN with another sequence number came in SYN-RECEIVED; plain and FIN acknowledgments never do |
| Acknowledgments.SynReplyExactly | stack/src/protocol/tcp/send_info.rs:210-222 | in SYN-RECEIVED the reply to a SYN acknowledges RCV.NXT if and only if it repeats the first SYN's sequence number |
| Acknowledgments.SynAcksExactly | stack/src/protocol/tcp/send_info.rs:210-222 | in every run all emitted SYN-ACKs acknowledge the client's ISN + 1 if and only if every SYN in SYN-RECEIVED carried that ISN |
| Acknowledgments.StraySynIsAnswered | stack/src/protocol/tcp/send_info.rs:210-222 | a SYN at 5000 on a connection opened at 0: its SYN-ACK acknowledges 5001 and stays pending, and the client's answer to it establishes the connection with RCV.NXT at 1 |
| Acknowledgments.TakenIsAcknowledged | stack/src/protocol/tcp/send_info.rs:197-671 | whatever moves RCV.NXT, in any state, is acknowledged at once by a reply with RCV.NXT as it then stands |
| Acknowledgments.EverythingIsAcknowledged | stack/src/protocol/tcp/send_info.rs:197-671 | in every run some emitted segment acknowledges every accepted byte, and the FIN once it is consumed, the one that ends the connection included |
| Retransmissions.EmittedAtMost | stack/src/protocol/tcp/connections.rs:173-188 | in every run a segment with data or FIN is emitted at most once and then once for each allowed retry, and a pending one exactly once more than its counter says (SYN-ACKs are counted by Handshakes.SynAcksAtMost) |
| Resets.ResetSentExactly | stack/src/protocol/tcp/send_info.rs:156-192 | in every state, exactly which segments are answered by a reset |
| Resets.ClientResetExactly | stack/src/protocol/tcp/send_info.rs:156-192 | in every run a client that follows its stream is reset, once synchronized, if and only if in FIN-WAIT-1 or FIN-WAIT-2 its data or FIN has overtaken another segment |
| Resets.ReorderedDataIsReset | stack/src/protocol/tcp/send_info.rs:187-191 | such a segment of a faithful client, answered by a reset |
| Windows.NewestOfferWins | stack/src/protocol/tcp/state.rs:273-294 | of any offers, in any order, the window of the newest (SEG.SEQ, SEG.ACK) is kept, the latest among equals, as long as each offer lies within half of sequence space of the newest before it |
| Windows.WindowIsNewest | stack/src/protocol/tcp/state.rs:215-224 | the same of every connection in every run, from the handshake segment on |
| SendSide.HandshakeAck | stack/src/protocol/tcp/send_info.rs:203-204 | the only acceptable handshake acknowledgment is the one of our SYN |
| SendSide.DrainSends | stack/src/protocol/tcp/state.rs:315-334 | with a sound send side draining never fails and stays in the window |
| SendSide.ClosingSends | stack/src/protocol/tcp/send_info.rs:460-493 | moving to CLOSE-WAIT or LAST-ACK keeps the outgoing stream and puts the FIN at its end |
| SendSide.ArrivalSends | stack/src/protocol/tcp/send_info.rs:136-154 | any segment in any state that does not slip: no error, bytes conserved, window respected, invariant kept |
| SendSide.ArrivalSendsExactly | stack/src/protocol/tcp/send_info.rs:136-154 | the same if and only if the segment does not slip; and exactly when handling returns an error |
| SendSide.DrainTakesAllItMay | stack/src/protocol/tcp/state.rs:315-334 | draining takes the front of the queue, and less than a full packet only if nothing stays or the window is used up |
| ReceiveSide.OffsetInWindow | stack/src/protocol/tcp/send_info.rs:45-56 | inside the window, the distance from RCV.NXT is the true offset in the stream |
| ReceiveSide.DrainKeepsBuffer | stack/src/protocol/tcp/reassembly.rs:54-72 | after in-order data and a drain everything left lies strictly inside the new window |
| ReceiveSide.ArrivalKeepsBuffer | stack/src/protocol/tcp/send_info.rs:315-414 | every step keeps buffered starts distinct and strictly inside the receive window |
| ReceiveSide.ArrivalReceives | stack/src/protocol/tcp/send_info.rs:197-603 | what a step accepts is the next stretch of the stream, its FIN is consumed only at the end, and the application gets exactly what is accepted until our FIN is sent |
| Runs.ResentIsTruthful | stack/src/protocol/tcp/pending_segment.rs:77-83 | a timeout keeps the queue's tiling and emits only stream bytes at their own offsets |
| Runs.RunKeepsSendHistory | stack/src/protocol/tcp/send_info.rs:136-154 | the send-side invariant holds through every run |
| Runs.RunKeepsReceiveHistory | stack/src/protocol/tcp/send_info.rs:136-154 | the receive-side invariant holds through every run |
| InFlightStream.PruneIsPrefix | stack/src/protocol/tcp/state.rs:268-270 | pruning by circular comparison removes exactly a prefix of the queue, up to the segment that holds the acknowledged position |
| InFlightStream.AckKeepsInFlight | stack/src/protocol/tcp/state.rs:262-271 | an acknowledgment other than the antipode keeps the queue tiling SND.UNA..SND.NXT |
| InFlightStream.TilesExtend | stack/src/protocol/tcp/send_info.rs:428-430 | a segment sent at SND.NXT extends the tiling |
| InFlightStream.AntipodeBreaks | stack/src/protocol/tcp/state.rs:263-266 | the antipode, acted on, leaves SND.NXT apparently behind SND.UNA |
| Reassembly.InsertedIntoMap | stack/src/protocol/tcp/reassembly.rs:37-52 | the vector is a map from start to payload; starts stay pairwise distinct |
| Reassembly.InsertedAllLongest | stack/src/protocol/tcp/reassembly.rs:37-52 | after any arrivals each start holds a longest payload that arrived for it |
| Reassembly.DrainIsChain | stack/src/protocol/tcp/reassembly.rs:54-72 | a drain returns exactly the chain of exact-start segments from RCV.NXT and leaves exactly the segments after the new RCV.NXT |
| Reassembly.ChainFollowsStream | stack/src/protocol/tcp/reassembly.rs:54-72 | if every buffered segment is a piece of a stream, the chain is the next stretch of it |
| Reassembly.OrderIndependent | stack/src/protocol/tcp/reassembly.rs:40-72 | neither order nor repetition of consistent arrivals near RCV.NXT changes what the vector gives back: same bytes, same RCV.NXT, same segments left |
| Reassembly.VectorIsMap | stack/src/protocol/tcp/reassembly.rs:37-52 | after any arrivals the vector holds, under distinct starts, exactly the map of longest payloads |
| Reassembly.DrainOfMap | stack/src/protocol/tcp/reassembly.rs:54-72 | a drain in terms of the map the vector stands for |
| Reassembly.ChainLinks | stack/src/protocol/tcp/reassembly.rs:54-72 | a chain is the buffered payloads that each start exactly where the one before ends, and at its end none starts |
| SeqSpace.PrecedesAgrees | stack/src/protocol/tcp/seq_space.rs:30-38 | circular comparison and signed difference agree with unbounded positions less than 2^31 apart |
| SeqSpace.PrecedesByDist | stack/src/protocol/tcp/seq_space.rs:32-38 | circular order in terms of forward distance, antipode included |
| SeqSpace.PrecedesNotTransitive | stack/src/protocol/tcp/seq_space.rs:30-32 | the order is indeed not transitive, by example |
| SeqSpace.InWindowExact | stack/src/protocol/tcp/seq_space.rs:40-45 | the window test accepts exactly the window, for every length up to 2^31 |
| SeqSpace.AckTestExact | stack/src/protocol/tcp/state.rs:263 | the acknowledgment test is exact with anything outstanding, and accepts offsets 0 and 2^31 with nothing outstanding |
| Timers.ResendMovesOn | stack/src/protocol/tcp/connections.rs:180-188 | right after a resend nothing is due |
| Timers.DeadlineExact | stack/src/protocol/tcp/connections.rs:143-149 | something is due if and only if the earliest deadline has been reached |
| Timers.RetriesStayWithin | stack/src/protocol/tcp/connections.rs:173-178 | a timeout that does not give the connection up keeps every retry counter within the configured number |
| Timers.RetriesRunOut | stack/src/protocol/tcp/connections.rs:157-189 | each resend uses up exactly one retry of what is left |
| Timers.SilentPeerGivenUp | stack/src/protocol/tcp/connections.rs:154-192 | with a silent peer a connection is given up after a bounded number of due timeouts |
| Timers.SilentPeerTimes | stack/src/protocol/tcp/connections.rs:154-192 | waking at the deadlines gives a queue up by a clock time bounded by the first segment's remaining retries |
| Pending.RtoSound | stack/src/protocol/tcp/pending_segment.rs:52-58 | the timeout never shrinks with retries and stays within the configured range |
| Pending.RtoDoubles | stack/src/protocol/tcp/pending_segment.rs:52-58 | the timeout doubles exactly while no bound or saturation is met (what that means for deadlines: Deadlines.DueExactly) |
| State.Sendable | stack/src/protocol/tcp/state.rs:321-331 | the most there is: never more than is queued, than a packet holds, or than the window has room for, and no less than one of the three |
| Connections.UnknownExactly | stack/src/protocol/tcp/send_info.rs:104-132 | a segment without an entry: exactly a SYN opens one, in every field, a reset is dropped, anything else is reset |
| Connections.SegmentIs | stack/src/protocol/tcp.rs:129-157 | what goes out for a connection goes from server to client, without options and with a window of 65535, the one that is enforced |
| Engines.NoneClosingUnchanged | stack/src/engine.rs:126-131 | if draining does not begin there was nothing to close and nothing has changed |
| Engines.DrainsOnce | stack/src/engine.rs:117-131 | in every engine run draining begins at most once and its deadline never changes |
| Engines.ShutdownClosesAll | stack/src/protocol/tcp/connections.rs:196-222 | when draining begins, each established connection, and no other, gets one FIN and has it pending |
| Engines.WakeMovesOn | stack/src/protocol/tcp/connections.rs:154-192 | after a timeout is handled every deadline of every entry lies ahead of the clock |
| Engines.DrainingEnds | stack/src/engine.rs:147-159 | neither end of draining comes before it begins, an elapsed grace period stays elapsed, and draining is complete exactly when no connection left has sent or received a FIN |
| Engines.QueriesAre | stack/src/engine.rs:147-159 | the two queries on the running engine are those statements about its state |
| Checksum.CalculateIsReference | stack/src/checksum.rs:4-47 | for every slice up to isize::MAX bytes the 64-bit-lane checksum is the complement of the one's-complement sum of the 16-bit words |
| Checksum.ChunksAreWords | stack/src/checksum.rs:35-44 | deferring all carries in a 128-bit accumulator loses nothing unless it overflows |
| Checksum.FoldKeepsOnesSum | stack/src/checksum.rs:21-22 | a fold keeps the one's-complement sum, and zero and non-zero apart |
| Checksum.EightFoldsSuffice | stack/src/checksum.rs:24-30 | eight folds are enough for every 128-bit value |
| Checksum.AlwaysFoldedIsReference | stack/src/checksum.rs:77-89 | folding at every step computes the reference, for every input |
| Checksum.RangeCheckedIsReference | stack/src/checksum.rs:122-147 | folding when the accumulator is nearly full computes the reference, for every input |
| Checksum.NaiveWrappingExact | stack/src/checksum.rs:98-113 | without an overflow check it is the reference if and only if the lost carries cancel out |
| Checksum.NaiveWrappingUpTo | stack/src/checksum.rs:49-58 | up to the documented size it always is |
| Checksum.NaiveWrappingFailsPast | stack/src/checksum.rs:49-58 | two bytes more and the worst case comes out wrong |
| Checksum.StoredChecksumVerifies | stack/src/protocol/tcp.rs:251-258 | a checksum stored in a zeroed field at an even offset makes the whole checksum 0 |
| Checksum.StoredOnesVerify | stack/src/protocol/udp.rs:88-91 | all ones in place of a computed 0 verify as well |
| Checksum.StandardExample | stack/src/checksum.rs:4-47 | the reference agrees with the example of section 3 of RFC 1071 |
| TcpWire.ParseFlags | stack/src/protocol/tcp/flags.rs:31-62 | a flags byte is accepted exactly if its ACK, RST, SYN and FIN bits are one of the six combinations (in numbers, whatever else is set: TcpWire.FlagsExactly) |
| TcpWire.FlagsRoundTrip | stack/src/protocol/tcp/flags.rs:6-66 | every combination is parsed back |
| TcpWire.EncodeTcp | stack/src/protocol/tcp.rs:214-267 | there is an encoding exactly if header and payload fit the MTU, and its length is theirs |
| TcpWire.WriteInto | stack/src/protocol/tcp.rs:214-261 | in place: succeeds exactly if the segment fits, and then the buffer holds its encoding and is otherwise unchanged |
| TcpWire.ParseWritten | stack/src/protocol/tcp.rs:171-208 | a written segment is always accepted, with every field but perhaps offset and payload equal |
| TcpWire.TcpRoundTrip | stack/src/protocol/tcp.rs:171-261 | it comes back equal if and only if its header is 20 bytes, or it has no payload and a whole number of words up to 60 bytes |
| TcpWire.FlagsExactly | stack/src/protocol/tcp/flags.rs:31-62 | a flags byte means one of the six combinations if and only if it is their number (2, 18, 16, 17, 4, 20) with any of PSH, URG, ECE and CWR added |
| TcpWire.ParsedExactly | stack/src/protocol/tcp.rs:171-208 | exactly which bytes are accepted as a segment, a checksum that verifies included, and each field as the number at its place |
| TcpWire.WrittenExactly | stack/src/protocol/tcp.rs:214-261 | a written segment: nothing reserved, nothing urgent, its flags' number, and a checksum that verifies |
| UdpWire.WriteInto | stack/src/protocol/udp.rs:65-94 | in place: succeeds exactly if the datagram fits, and then the buffer holds its encoding and is otherwise unchanged |
| UdpWire.UdpRoundTrip | stack/src/protocol/udp.rs:31-94 | every written datagram parses back equal and never carries a zero checksum field, even if the computed checksum is 0 |
| UdpWire.UnsummedIsAccepted | stack/src/protocol/udp.rs:36-42 | with a zero checksum field a datagram is accepted whatever it contains |
| UdpWire.ParsedExactly | stack/src/protocol/udp.rs:31-53 | exactly which bytes are accepted as a datagram: the checksum field is zero or verifies |
| UdpWire.WrittenExactly | stack/src/protocol/udp.rs:65-94 | a written datagram: its length, and a checksum that verifies and is not zero |
| IcmpWire.WriteInto | stack/src/protocol/icmp_echo.rs:85-112 | in place: succeeds exactly if the message fits, and then the buffer holds its encoding and is otherwise unchanged |
| IcmpWire.RequestIsEchoed | stack/src/protocol/icmp_echo.rs:41-112 | the reply to an accepted request is as long as it, is an echo reply whose checksum verifies, and repeats every byte behind the checksum |
| IcmpWire.EchoRoundTrip | stack/src/protocol/icmp_echo.rs:41-112 | a written request parses back equal |
| IcmpWire.ParsedExactly | stack/src/protocol/icmp_echo.rs:41-67 | exactly which bytes are accepted as an echo request, a checksum that verifies included |
| Ipv4.WriteInto | stack/src/ipv4_header.rs:114-133 | in place: the header in front, the rest of the buffer unchanged |
| Ipv4.Ipv4RoundTrip | stack/src/ipv4_header.rs:60-133 | every written header passes its checksum and parses back to the same fields and payload |
| Ipv4.ParsedExactly | stack/src/ipv4_header.rs:60-90 | exactly which bytes are accepted as a packet, and where its fields are |
| Ipv4.WrittenExactly | stack/src/ipv4_header.rs:114-133 | the written header, byte by byte, its words adding up to all ones |
| Packet.WriteInto | stack/src/ipv4_packet.rs:85-98 | in place, for all three protocols: succeeds exactly if header and body fit the MTU, and the buffer starts with the packet |
| Packet.PacketRoundTrip | stack/src/ipv4_packet.rs:30-98 | a written packet parses back to what was sent if and only if it is no ICMP reply and no TCP segment that claims options (without payload, up to 60 bytes of header are harmless) |
| Packet.ReplyFitsExactly | stack/src/ipv4_header.rs:76-89 | the reply to a datagram or echo request is as long as what follows the header it claims to have, so it fits a packet if and only if that is at most the MTU less 20 bytes; with a header of at least 20 bytes it always does |
| Packet.ShortHeaderOverflows | stack/src/ipv4_header.rs:76-89 | a packet as long as the MTU that claims a header of 0 bytes is accepted, and its reply cannot be written |
| Packet.AcceptedExactly | stack/src/ipv4_packet.rs:30-46 | exactly which bytes are accepted, header and body, for all three protocols |
| Wire.FromNumber | stack/src/protocol.rs:77-92 | accepts exactly the numbers of the three protocols |
| Wire.PseudoHdrCksum | stack/src/protocol.rs:44-66 | in place: the reference checksum of pseudo-header and data, or an error beyond the MTU |
| Wire.StoredPseudoChecksum | stack/src/protocol.rs:41-66 | storing it, or all ones for 0, makes the pseudo-header checksum 0 |
| Reassembly.TcpReassembly.MarkFin | stack/src/protocol/tcp/reassembly.rs:26-28 | the first FIN position recorded is kept |
| Reassembly.TcpReassembly.Insert | stack/src/protocol/tcp/reassembly.rs:40-52 | in place: appended, or replaces a shorter payload with the same start |
| Reassembly.TcpReassembly.ExtractUpTo | stack/src/protocol/tcp/reassembly.rs:62-67 | in place: one scan drops stale segments until it meets the one at RCV.NXT |
| Reassembly.TcpReassembly.DrainContiguous | stack/src/protocol/tcp/reassembly.rs:57-72 | in place: terminates, and leaves and returns what repeated scans do |
| State.ConnState.FromSynAckInfo | stack/src/protocol/tcp/state.rs:52-71 | a new connection: SYN-RECEIVED, SYN-ACK pending, frontiers from the SYN-ACK |
| State.ConnState.IncomingAckUpdate | stack/src/protocol/tcp/state.rs:262-295 | in place: SND.UNA, retransmission queue and window after an acknowledgment |
| State.ConnState.RetainUncovered | stack/src/protocol/tcp/state.rs:268-270 | in place: exactly the uncovered pending segments stay, in order |
| State.ConnState.TakeTransmittable | stack/src/protocol/tcp/state.rs:315-334 | in place: takes the sendable front of the send buffer, or fails and changes nothing (the most that may be sent: SendSide.DrainTakesAllItMay) |
| Handlers.HandleTcp | server/src/application.rs:38-43 | in place: the response is appended to the send buffer |
| Handlers.DeliverReassembled | stack/src/protocol/tcp/send_info.rs:357-359 | in place: drained payloads are handed over one by one, in order |
| Handlers.DataPayload | stack/src/protocol/tcp/send_info.rs:418-433 | in place: data at SND.NXT, which moves past it, and becomes pending |
| Handlers.CloseOnInOrderFin | stack/src/protocol/tcp/send_info.rs:438-454 | in place: equals the value function (what that is, field by field: OneStep.StepIsExactly) |
| Handlers.CloseWaitOrLastAck | stack/src/protocol/tcp/send_info.rs:460-493 | in place: equals the value function (what that is, field by field: OneStep.StepIsExactly) |
| Handlers.KnownConnCommonFallback | stack/src/protocol/tcp/send_info.rs:158-193 | equals the value function, and changes nothing (what that is, field by field: OneStep.StepIsExactly) |
| Handlers.CompleteHandshake | stack/src/protocol/tcp/send_info.rs:299-311 | in place: ESTABLISHED, SND.UNA moved, queue cleared |
| Handlers.HandleSynRcv | stack/src/protocol/tcp/send_info.rs:197-295 | in place: equals the value function, error paths included (what that is, field by field: OneStep.StepIsExactly) |
| Handlers.HandleEstablished | stack/src/protocol/tcp/send_info.rs:315-414 | in place: equals the value function, error paths included (what that is, field by field: OneStep.StepIsExactly) |
| Handlers.HandleFinWait1 | stack/src/protocol/tcp/send_info.rs:497-564 | in place: equals the value function (what that is, field by field: OneStep.StepIsExactly) |
| Handlers.HandleFinWait2 | stack/src/protocol/tcp/send_info.rs:568-603 | in place: equals the value function (what that is, field by field: OneStep.StepIsExactly) |
| Handlers.HandleCloseWait | stack/src/protocol/tcp/send_info.rs:607-622 | in place: equals the value function, error paths included (what that is, field by field: OneStep.StepIsExactly) |
| Handlers.HandleClosing | stack/src/protocol/tcp/send_info.rs:626-646 | in place: equals the value function (what that is, field by field: OneStep.StepIsExactly) |
| Handlers.HandleLastAck | stack/src/protocol/tcp/send_info.rs:650-671 | in place: equals the value function (what that is, field by field: OneStep.StepIsExactly) |
| Handlers.HandleKnownConn | stack/src/protocol/tcp/send_info.rs:136-154 | in place: the handler of the state the connection is in (what that is, field by field: OneStep.StepIsExactly) |
| Connections.TcpConnections.constructor | stack/src/protocol/tcp/connections.rs:83-89 | an empty table with the timeout range 200 ms to 2 min |
| Connections.TcpConnections.DecideReply | stack/src/protocol/tcp/send_info.rs:78-102 | in place: the table and reply of the value function; only the segment's own entry can change |
| Connections.TcpConnections.HandleUnknownConn | stack/src/protocol/tcp/send_info.rs:104-132 | in place: a SYN opens an entry, anything but a reset is reset |
| Connections.TcpConnections.HandleKnownConn | stack/src/protocol/tcp/send_info.rs:93-100 | in place: the entry is updated, or removed when the handler says so |
| Connections.TcpConnections.MakeRetransmissions | stack/src/protocol/tcp/connections.rs:154-192 | in place: every entry is resent or given up as it would be on its own, and what goes out to each client is exactly its due segments in order (by the clock: Deadlines.TimeoutIsExactly) |
| Connections.RetransmitDue | stack/src/protocol/tcp/connections.rs:180-188 | in place: every due segment of one connection, and no other, is sent again |
| Connections.TcpConnections.CloseEstablished | stack/src/protocol/tcp/connections.rs:196-222 | in place: exactly one FIN for each established connection, and no other is touched |
| Connections.TcpConnections.NextRetransmitDeadline | stack/src/protocol/tcp/connections.rs:143-149 | the least deadline of all pending segments, or none if nothing is pending (by the clock: Deadlines.DueExactly) |
| Engines.Engine.constructor | stack/src/engine.rs:53-65 | an engine without connections that is not draining |
| Engines.Engine.HandleShutdown | stack/src/engine.rs:116-133 | in place: closes what is established once, and reports the time left from then on |
| Engines.Engine.PollTimeout | stack/src/engine.rs:139-145 | the time to the earliest of all deadlines, or none if there is none; zero if it has passed |
| Engines.Engine.HandlePacket | stack/src/engine.rs:89-97 | in place: an error and no change for a packet that does not parse, otherwise the table and the reply, with its header, that its protocol decides on |
| Transitions.StateAdvances | stack/src/protocol/tcp/state.rs:247-251 | a segment leaves a connection in its state or strictly advances it |
| Transitions.FrontiersFreeze | stack/src/protocol/tcp/send_info.rs:497-671 | SND.NXT stands still behind our FIN, RCV.NXT behind the peer's |
| Transitions.OutsideWindowRejected | stack/src/protocol/tcp/send_info.rs:158-177 | in a synchronized state a segment outside the receive window changes nothing and gets <SND.NXT, RCV.NXT, ACK>, or nothing if it is a reset |
| Transitions.RemovedOnlyWhenDone | stack/src/protocol/tcp/send_info.rs:167-171 | removal by a segment means an in-order reset, or our FIN acknowledged and the peer's consumed |
| Transitions.WindowStep | stack/src/protocol/tcp/state.rs:273-294 | only an acceptable acknowledgment that is acted on can change the window |
| Transitions.PendingIsReply | stack/src/protocol/tcp/send_info.rs:428-430 | an arrival makes nothing pending but its own reply and counts no retry |
| StateDiagram.ResetHandled | stack/src/protocol/tcp/send_info.rs:162-171 | in every state a reset removes the connection exactly at RCV.NXT, is challenged elsewhere in the window, is dropped outside it, and changes nothing else |
| StateDiagram.RemovedExactly | stack/src/protocol/tcp/send_info.rs:497-671 | removal if and only if an in-order reset or the segment that ends the close of the state it is in |
| StateDiagram.HandshakeExactly | stack/src/protocol/tcp/send_info.rs:203-290 | SYN-RECEIVED is left if and only if a segment in the window acknowledges our SYN |
| StateDiagram.ActiveCloseMoves | stack/src/protocol/tcp/send_info.rs:497-646 | FIN-WAIT-2 is entered if and only if a segment without data in the window acknowledges our FIN in FIN-WAIT-1 (one with data leaves it there), CLOSING if and only if the peer's FIN comes in order without acknowledging ours |
| StateDiagram.OutOfOrderIsKept | stack/src/protocol/tcp/send_info.rs:375-410 | data and FIN ahead of a gap are buffered, nothing is delivered, and a duplicate acknowledgment is sent |
| StateDiagram.GapIsClosed | stack/src/protocol/tcp/send_info.rs:344-373 | data that closes a gap is delivered together with exactly the buffered payloads that each start where the one before ends, as far as that goes; a waiting FIN is consumed if and only if RCV.NXT has come as far |
| StateDiagram.FinFollowsLastByte | stack/src/protocol/tcp/send_info.rs:456-493 | in every run, after the peer's FIN ours has been sent if and only if the send buffer is empty |

## Left out

- The contents of IPv4 and TCP options: the program skips them, and so does the model.
- TUN devices, poll, signals, threads, logging, display and configuration: input and output only.
- `sys::random_u32`: the initial sequence number is an arbitrary input.
- Clock readings are inputs, in nanoseconds and without an upper bound; `Instant` overflow, where a segment counts as due at once and starting a shutdown fails, is not modelled.
- Error texts and backtraces: an error is an error.
- The direction markers `In` and `Out`: sequence points of both directions have one type.
- `Rc` sharing of payloads: a payload is an immutable byte sequence of 1 to 65535 bytes.
- The order in which a `HashMap` is traversed: what goes out is stated per client, in order, and is open among clients.
- Applications other than echo and shout: the model has the two that the server offers.
- A failing write leaves a partly written buffer; the model says nothing about its contents, as callers discard it.
- The lazy iterators of `drain_contiguous` and `close_established` are modelled as run to their end, as their callers do.
- Liveness beyond timeouts and `Clients.EchoCompletes`: FIN-WAIT-2, FIN-WAIT-1 and CLOSING with nothing pending, and ESTABLISHED or CLOSE-WAIT with data queued and nothing pending, wait for the peer for ever, since the program has neither keep-alive nor zero-window probes. With a zero window the last is as it must be; when it happens with an open one `Stalls.QueuedAndIdleExactly` says. With other clients, and with loss, whether LAST-ACK is reached depends on the network and on the peer's window.
- Congestion control, zero-window probing and TIME-WAIT: the program does not have them.

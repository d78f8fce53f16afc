# polaris-trade: a verified model of its receive path

This project models the hard core of a market-data receive path and proves what it does
over every input and every run:

- the MoldUDP64 receiver: wire format, reorder ring, gap tracking and re-requests, A/B
  arbitration, and the poll loop that turns datagrams into an ordered stream of messages;
- the SoupBinTCP client session: framing, login, numbering, heartbeats, buffered writes;
- the AF_XDP path: the raw eBPF redirect program, the single-producer single-consumer ring
  shared with the kernel, and the ownership of buffer slots;
- the kernel-bypass shell and UDP decapsulation above it;
- the io_uring receive engine: buffer slots, the provided-buffer ring, armed requests.

## How it is built

Code that changes state in place is a class whose methods run the code's own loops over
its own data structures (slot array, interval map, circular bitmap, rings). Where the law
spans many operations, each method is proved equal to a pure function of a state machine,
and the law is proved about every run of the machine (`MoldReceiver` with `ReceiverCode`,
`SpscRing` with `RingCode`, `Afxdp` with `AfxdpCode`, `Uring` with `IoUring`). Elsewhere
ghost histories record what happened, the class invariant ties them to the fields, what was
used up of a script and what is left of it together stay the script given, and a `Drive`
method states the law for every schedule (`SoupRun`, `UdpDecap`).

What the two sides of a wire or of the kernel mean to each other is stated on octets and on
the other side's own account: what a server reads in a request or a login (`GapEmitter`,
`SoupLogin`), what a client reads of a server (`SoupServer`), what a datagram announces
(`MoldSources`), why a frame is refused (`UdpParse`), when the kernel is done with a request
(`Uring`).

Sockets, the kernel, clocks and other threads are parameters: scripts of what each read,
write, poll or kernel step does, fixed in advance and quantified over. Kernel and other
threads also run between the driver's own steps.

Sequences, octets and counters are unbounded integers, with the widths that matter written
out: 16- and 32-bit ring indices and the numbering of a SoupBinTCP stream wrap, 64-bit
sequence sums saturate where the code saturates, eBPF immediates are two's complement. The
laws of the MoldUDP64 receiver are stated for runs whose accepted headers leave room below
2^64 (`MoldBounds.RunFits`), and there the model is exact (`MoldBounds.EveryStateIsExact`).

## What does not hold

- *Several legs and a full ring* (`MoldStranded.TwoLegsCanPanic`). When a datagram on a
  receiver with more than one leg is cut short by a full reorder ring after one of its
  messages was queued inline, that message stays queued without its datagram, and the poll
  that hands it out slices outside the backing: it panics, or for an owned message panics in
  debug builds and in release builds returns a frame that panics when read. A run of genuine
  datagrams that does this is constructed for every ring of at least five slots. The
  guarantees hold exactly when no datagram strands in the state it meets
  (`MoldRefusals.Strands`): the next message in order gets through with it, and a later
  message of it gets through, is not held, lies behind a missing sequence and shares its slot
  with another that does (`MoldBacking.DataBackedIff`, `MoldBacking.BackedIffNoneStranding`).
  Once all that waits is handed out, something was handed out outside its datagram exactly
  when a datagram stranded (`MoldPanics.OutsideIffStranding`). One leg never strands.
- *Sequences at the end of 64 bits*. A header with sequence 2^64 - 1 and one message makes
  the next expected sequence wrap to 0 in release builds, after which 0 is delivered, and
  panic in debug builds (`MoldStranded.BoundIsTight`). `MoldBounds.RunFits` keeps such
  headers out. In a SoupBinTCP
  session that logs in near 2^64 the numbering wraps in release builds and panics in debug
  builds; it is consecutive exactly when login sequence plus messages stay within 2^64
  (`SoupReading.ConsecutiveIff`).
- *Staging what was already forwarded* (`Arbiter.StagedAgainIsForwardedTwice`,
  `Arbiter.ForwardsAgainIff`). The arbiter alone forwards a sequence twice exactly if a
  range is staged that holds a forwarded sequence below the window. The receiver never does
  so (`MoldLegs.ForwardedOnce`).
- *Draining into a list that is not empty* (`UringRefused.RefusedProvideLeavesSlots`). After
  a provide that finds no room on the legacy io_uring path the next poll passes a non-empty
  list to the pool's `drain_freed`, which asserts in debug builds that it is empty. It
  happens exactly when the room in the submission queue runs out for the runs of returned
  slots and the kernel, entered to make room, is busy, interrupted, takes nothing or fails
  (`UringRuns.PollLeavesSlotsIff`). In release builds the swap loses nothing
  (`UringSound.PollSound`).
- *Packet kinds*. The documentation of MoldUDP64 data packets gives the message count as 1
  to 0x7FFE; `kind` treats every count but 0 and 0xFFFF as data, and the model follows it.

## Model

| member | source | states |
|---|---|---|
| `MoldWire.HeaderDecodes` | crates/clients/moldudp/src/wire.rs:59-81 | a parsed header is the one whose encoding the first 20 octets of the datagram are |
| `MoldWire.HeaderRoundTrip` | crates/clients/moldudp/src/wire.rs:59-81 | every encoded header parses back to itself, whatever follows it |
| `MoldWire.MessageBlockIter.Next` | crates/clients/moldudp/src/wire.rs:103-126 | one call of the iterator yields the next block of the specification or the error, and after an error nothing |
| `MoldWire.CollectBlocks` | crates/clients/moldudp/src/wire.rs:91-126 | running the iterator to its end yields the blocks of the pure parse, or its error |
| `MoldWire.BlocksInBounds` | crates/clients/moldudp/src/wire.rs:91-126 | parsed blocks are as many as counted, inside the datagram, in order and disjoint |
| `MoldWire.BlocksRoundTrip` | crates/clients/moldudp/src/wire.rs:91-126 | encoded messages parse back to exactly those payloads, whatever stands before and after them |
| `MoldWire.BlocksDecode` | crates/clients/moldudp/src/wire.rs:91-126 | the converse: blocks that parse are exactly what encoding their payloads writes at that place |
| `MoldWire.RequestRoundTrip` | crates/clients/moldudp/src/gap.rs:207-213 | a request packet parses back to its session, first sequence and count |
| `Reassembly.RunIsMaximal` | crates/clients/moldudp/src/reassembly.rs:124-147 | what a drain takes is the longest unbroken run of held sequences from the next one expected |
| `Reassembly.DrainRemovesRun` | crates/clients/moldudp/src/reassembly.rs:78-147 | draining removes that run and nothing else and moves the next expected sequence behind it |
| `Reassembly.NeverFullInWindow` | crates/clients/moldudp/src/reassembly.rs:92-121 | a sequence within one capacity of the next expected one is never refused while everything held is |
| `Reassembly.SequenceReassembler.Insert` | crates/clients/moldudp/src/reassembly.rs:92-121 | the slot array does to its map from sequence to payload what the specification does, verdict included |
| `Reassembly.SequenceReassembler.CursorNext` | crates/clients/moldudp/src/reassembly.rs:128-141 | one step of the cursor takes exactly the expected sequence, if held |
| `Reassembly.SequenceReassembler.DrainAll` | crates/clients/moldudp/src/reassembly.rs:143-147 | dropping the cursor leaves the state of a whole drain |
| `Reassembly.SequenceReassembler.CursorTake` | crates/clients/moldudp/src/reassembly.rs:78-147 | taking any number of items and dropping the cursor early yields a prefix of the run and still removes all of it |
| `GapTracking.CanonicalIsUnique` | crates/clients/moldudp/src/gap.rs:31-90 | two interval maps in canonical form with the same sequences are equal |
| `GapTracking.GapRequestHandler.RecordMissingRange` | crates/clients/moldudp/src/gap.rs:44-65 | the tracked set grows by exactly the range and the interval map stays canonical: non-empty, disjoint, non-adjacent |
| `GapTracking.GapRequestHandler.MarkReceived` | crates/clients/moldudp/src/gap.rs:74-88 | the tracked set loses exactly the sequence, splitting or trimming its interval, and stays canonical |
| `GapTracking.GapRequestHandler.HasPending` | crates/clients/moldudp/src/gap.rs:91-93 | says whether the tracked set is non-empty |
| `GapTracking.GapRequestHandler.PendingGaps` | crates/clients/moldudp/src/gap.rs:96-118 | the requests list the tracked set once, in order, each of 1 to 65535 sequences |
| `GapTracking.TrackedIsRecordedMinusReceived` | crates/clients/moldudp/src/gap.rs:44-93 | after any operations the tracked set is what was recorded and not received since |
| `GapEmitter.AbsorbSeparates` | crates/clients/moldudp/src/gap.rs:192-203 | one pass of absorbing, whose bounds widen as it goes, leaves the ranges kept apart from the widened one and from each other |
| `GapEmitter.AbsorbCovers` | crates/clients/moldudp/src/gap.rs:192-203 | the ranges kept and the widened one cover exactly what the old ranges and the request covered |
| `GapEmitter.EveryAttemptIsNews` | crates/clients/moldudp/src/gap.rs:155-203 | over every run with a clock that does not run back and non-empty gaps that fit a request, each packet tried asks, as the server reads it, for a sequence that no packet sent or failed within the last interval asked for |
| `GapEmitter.EveryPacketReadsBack` | crates/clients/moldudp/src/gap.rs:155-213 | over every run the server reads in each packet tried the session and exactly one gap of the call that made it |
| `GapEmitter.RepeatWaitsOut` | crates/clients/moldudp/src/gap.rs:155-189 | over every run a packet that asks for nothing but what an earlier packet, sent or failed, asked for comes at least one interval after it |
| `GapEmitter.IntervalIsLongest` | crates/clients/moldudp/src/gap.rs:162-162 | the interval is the longest whole number of nanoseconds of which the cap fits into a second |
| `GapEmitter.RoundTells` | crates/clients/moldudp/src/gap.rs:155-189 | a round tries packets one by one until the socket is full or fails, which its last attempt shows; it returns the number of packets sent, or the failure |
| `GapEmitter.RoundMarks` | crates/clients/moldudp/src/gap.rs:155-203 | remembered after a round is what was before it and the range of every attempt but one the full socket did not take |
| `GapEmitter.GapRequestEmitter.MarkRequested` | crates/clients/moldudp/src/gap.rs:192-203 | the in-place single pass is the specified absorption |
| `GapEmitter.GapRequestEmitter.EmitGaps` | crates/clients/moldudp/src/gap.rs:155-189 | one call prunes, skips covered gaps, sends, and stops as the specification does: memory, attempts and result |
| `Recovery.RoundIsComplete` | crates/clients/moldudp/src/gap.rs:155-189 | a round in which every send went out leaves every sequence of every gap remembered as requested |
| `Recovery.Requester.SendDue` | crates/clients/moldudp/src/receiver/recovery.rs:87-103 | in each packet of a call the server reads this session and a gap of sequences missing at that moment; over the whole run every packet is news; after a round without blocked or failed sends every missing sequence is remembered; and the number returned is that of the packets sent |
| `Arbiter.StageIsSoundIff` | crates/clients/moldudp/src/ab.rs:96-107 | staging a range keeps pending and forwarded sequences disjoint exactly when no forwarded sequence of the range lies below the window base |
| `Arbiter.ForwardsAgainIff` | crates/clients/moldudp/src/ab.rs:96-147 | from every sound state, staging a range lets some forwarded sequence be forwarded again, at any later time, exactly when the range holds a forwarded sequence below the window base |
| `Arbiter.StagedAgainIsForwardedTwice` | crates/clients/moldudp/src/ab.rs:96-147 | without that condition a sequence can be forwarded twice, shown by a run |
| `Arbiter.NeverForwardedTwice` | crates/clients/moldudp/src/ab.rs:113-147 | over every run that stages only what was never observed, no sequence is forwarded twice |
| `Arbiter.NothingLeavesUnaccounted` | crates/clients/moldudp/src/ab.rs:96-189 | each sequence between anchor and window base was forwarded, is pending, or was returned as confirmed |
| `Arbiter.ConfirmedWaitedOutGrace` | crates/clients/moldudp/src/ab.rs:176-189 | a confirmed sequence was not forwarded before and had been pending for the whole grace window |
| `Arbiter.AbArbiter.ObserveSequence` | crates/clients/moldudp/src/ab.rs:113-147 | the circular bitmap agrees with the set of forwarded sequences before and after, through slides of any length, and the verdict is the specified one |
| `Arbiter.AbArbiter.Slide` | crates/clients/moldudp/src/ab.rs:124-136 | moving the window by any distance clears exactly the slots that leave it and stages the sequences never seen there |
| `Arbiter.AbArbiter.NoteMissingRange` | crates/clients/moldudp/src/ab.rs:96-107 | stages exactly the sequences of the range that the window does not know as delivered, keeping the time of those already pending |
| `Arbiter.AbArbiter.ConfirmedGaps` | crates/clients/moldudp/src/ab.rs:176-189 | returns and removes exactly the pending sequences whose grace is over, in order |
| `MoldOrder.DeliveredInOrder` | crates/clients/moldudp/src/receiver/decode.rs:166-310 | for every run of one leg, and every run of several legs in which no datagram strands an inline message in the state it meets, over lost, repeated and reordered datagrams whose sequences leave room below 2^64: no poll panics, the messages handed out are those of the source from the anchor on, one by one, and with those waiting they are all up to the next one expected |
| `MoldOrder.PollConsistent` | crates/clients/moldudp/src/receiver/recv.rs:21-63 | one poll hands out the next message of the source or none, and keeps everything queued and held genuine |
| `MoldSources.NothingIsLost` | crates/clients/moldudp/src/receiver/recv.rs:32-63 | for every run the datagrams handed over, legs in order and retransmissions of the rounds with a gap open under the stream of the requester, are those decoded, in order and once each, then those still waiting; and the events told, then those queued, are those the decoded datagrams announce |
| `MoldSources.TurnAnnounces` | crates/clients/moldudp/src/receiver/decode.rs:196-224 | decoding a datagram queues a heartbeat exactly for count 0x0000 and an end of session exactly for count 0xFFFF, with the sequence its octets spell, if it is whole and of the session; every message it makes ready carries its stream |
| `MoldSources.TurnFailsIff` | crates/clients/moldudp/src/receiver/decode.rs:166-231 | decoding a datagram fails exactly for a bad size, a foreign session, blocks cut short or a message the ring refuses, each with its own error |
| `MoldSources.PollReports` | crates/clients/moldudp/src/receiver/recv.rs:21-63 | a poll stops at the first failure, of a datagram or a source, and reports it; it is idle only with nothing ready or waiting and every source asked until a round brought nothing |
| `MoldSources.TurnReportsGaps` | crates/clients/moldudp/src/receiver/decode.rs:126-164 | a turn that records a sequence as missing reports a gap; on one leg it reports one exactly when its datagram jumps past the highest sequence seen |
| `MoldSources.EveryJumpIsReported` | crates/clients/moldudp/src/receiver/decode.rs:126-142 | over every run of one leg the gaps reported, with those whose report waits, are as many as the datagrams that jumped ahead |
| `MoldSources.TurnConfirms` | crates/clients/moldudp/src/receiver/decode.rs:144-164 | after a turn that did not fail no gap candidate has waited out the confirm window |
| `MoldBacking.BackedIffNoneStranding` | crates/clients/moldudp/src/receiver/decode.rs:20-103 | over any datagrams, genuine or not, whose accepted headers leave room below 2^64: after every poll the inline counter is exact, the backing is the last datagram and covers each inline item while any remain, and it is released exactly at zero, if and only if no datagram strands an inline message in the state it meets; then no poll reaches outside its datagram, and on one leg none ever strands |
| `MoldPanics.OutsideIffStranding` | crates/clients/moldudp/src/receiver/decode.rs:20-103 | over any datagrams and any legs: once the items left by a run are handed out, by polls of any kind, no poll has panicked and no owned frame lies outside its datagram if and only if no datagram of the run strands an inline message in the state it meets |
| `MoldPanics.DoomedRun` | crates/clients/moldudp/src/receiver/decode.rs:20-103 | from a state with a stranded inline item no schedule of polls that takes every waiting item avoids reaching outside the datagram |
| `MoldBacking.DataBackedIff` | crates/clients/moldudp/src/receiver/decode.rs:233-310 | a datagram leaves the backing right exactly when, told from the state before it, it does not both carry the next message in order through and hold a later message that the ring refuses; on one leg it never does |
| `MoldBacking.TurnBackedIff` | crates/clients/moldudp/src/receiver/decode.rs:20-103 | a turn leaves the backing right exactly when its datagram strands nothing in the state before |
| `MoldRefusals.DataRefusedIff` | crates/clients/moldudp/src/receiver/decode.rs:233-308 | a datagram meets a full ring exactly when, told from the state before it, a message of it gets through, is not held, waits behind a missing one and shares its slot with another that waits; it leaves inline work behind exactly when it strands |
| `MoldRefusals.OneLegRefusedIff` | crates/clients/moldudp/src/receiver/decode.rs:257-308 | on one leg: exactly when it starts past the next message and a message of it that is not held shares its slot with a held one or an earlier one of the datagram |
| `MoldRefusals.TurnRefusedIff` | crates/clients/moldudp/src/receiver/decode.rs:20-103 | a turn reports a full ring exactly when the state before it says so |
| `MoldRefusals.RunRefusedIff` | crates/clients/moldudp/src/receiver/recv.rs:21-63 | a run reports a full ring exactly when some datagram of it holds a refused message in the state it meets |
| `MoldBounds.EveryStateIsExact` | crates/clients/moldudp/src/receiver/decode.rs:166-308 | over every run whose accepted headers and start leave room below 2^64, no sum the code forms leaves 64 bits: next sequence, sequence plus one, window base plus capacity, sequence plus count, in every state a datagram meets, after any number of its messages, and at the end |
| `MoldBounds.HeadersFit` | crates/clients/moldudp/src/receiver/decode.rs:166-194 | when every header among the datagrams leaves the room, so does every header a run accepts, whatever the run does |
| `MoldStranded.BoundIsTight` | crates/clients/moldudp/src/receiver/decode.rs:166-308 | for every start sequence a genuine datagram of one message leaves every sum below 2^64 exactly when it leaves the room, and at 2^64 - 1 the next sequence is 2^64 |
| `MoldStranded.TwoLegsCanPanic` | crates/clients/moldudp/src/receiver/decode.rs:233-310 | with two legs genuine datagrams, none near 2^64, lead to a poll that slices outside its backing: the guarantees do not extend to datagrams that strand |
| `MoldGaps.NoGapIffCaughtUp` | crates/clients/moldudp/src/receiver/decode.rs:126-140 | under the partition, no gap is pending exactly when all that was seen has been delivered |
| `MoldGaps.PollPartitionIff` | crates/clients/moldudp/src/receiver/recv.rs:21-63 | with one leg a poll keeps the partition of undelivered sequences into held and missing exactly when no datagram it decodes holds a message that the ring refuses in the state it meets |
| `MoldGaps.OneLegPartitionIff` | crates/clients/moldudp/src/receiver/decode.rs:126-303 | for every run of one leg, after every poll each undelivered sequence seen is in exactly one of ring and gap set, and nothing else is, if and only if no datagram holds a refused message in the state it meets |
| `MoldGaps.NearIsNeverFull` | crates/clients/moldudp/src/receiver/decode.rs:257-303 | a datagram whose messages lie within one capacity of the next to deliver is never refused, on any number of legs |
| `MoldGaps.NearRunKeepsPromises` | crates/clients/moldudp/src/receiver/recv.rs:21-63 | over every run in which each datagram is near in the state it meets: nothing is refused, no poll panics, messages come in order, and one leg keeps the partition, with no further condition |
| `MoldLegs.TurnSafe` | crates/clients/moldudp/src/receiver/decode.rs:233-255 | whatever the receiver stages was never forwarded, so the arbiter stays sound in every turn, even one that refuses a message |
| `MoldLegs.ForwardedOnce` | crates/clients/moldudp/src/ab.rs:113-147 | over every run of a receiver with several legs, even one that refuses messages, no two Forward verdicts concern the same sequence |
| `MoldLegs.SeveralLegsAccounted` | crates/clients/moldudp/src/receiver/decode.rs:144-303 | for every run of several legs no forwarded sequence is a gap candidate; if no datagram holds a refused message in the state it meets, each sequence from the anchor to the highest seen was forwarded, waits out the confirm window or is a recorded gap, and one not delivered is held, waits or is a gap |
| `ReceiverCode.MoldUdpReceiver.AcceptHeader` | crates/clients/moldudp/src/receiver/decode.rs:166-192 | locks the session and anchors ring, frontier and arbiter as the machine does |
| `ReceiverCode.MoldUdpReceiver.NoteTailGap` | crates/clients/moldudp/src/receiver/decode.rs:126-140 | records what a heartbeat or end of session shows as lost, as the machine does |
| `ReceiverCode.MoldUdpReceiver.OpenGap` | crates/clients/moldudp/src/receiver/decode.rs:233-255 | records or stages the jump past the highest sequence seen, as the machine does |
| `ReceiverCode.MoldUdpReceiver.ProcessData` | crates/clients/moldudp/src/receiver/decode.rs:257-308 | the loop over blocks with ring, interval map and bitmap reaches the state and the result of the machine |
| `ReceiverCode.MoldUdpReceiver.DrainConfirmedGaps` | crates/clients/moldudp/src/receiver/decode.rs:144-163 | turns confirmed candidates into gaps and gap events as the machine does |
| `ReceiverCode.MoldUdpReceiver.Pump` | crates/clients/moldudp/src/receiver/recv.rs:32-63 | polls and decodes until an item is ready or every source is idle, reaching the machine's state |
| `ReceiverCode.MoldUdpReceiver.Poll` | crates/clients/moldudp/src/receiver/recv.rs:21-28 | the whole poll over the real data structures is the machine's poll, state and outcome |
| `SoupWire.PacketDecodes` | crates/clients/soupbintcp/src/wire.rs:71-86 | a packet that is read is the one whose encoding stands at the front of the buffer |
| `SoupWire.PacketRoundTrip` | crates/clients/soupbintcp/src/wire.rs:71-86 | an encoded packet is read back whole, whatever follows it |
| `SoupWire.TakeIsStable` | crates/clients/soupbintcp/src/session.rs:270-288 | a packet or error found at the front of the buffer does not depend on octets that arrive later |
| `SoupWire.EncodingParsesBack` | crates/clients/soupbintcp/src/session.rs:133-142 | the concatenated encodings of packets parse back to exactly those packets |
| `SoupLogin.NumericRoundTrip` | crates/clients/soupbintcp/src/session.rs:534-565 | a right-justified number parses back to itself |
| `SoupLogin.SpelledIsRead` | crates/clients/soupbintcp/src/session.rs:552-565 | any field of spaces and then decimal digits is read as its number |
| `SoupLogin.LoginRequestReads` | crates/clients/soupbintcp/src/session.rs:517-538 | octet by octet the login payload is user, password and session, each cut to its width and then spaces, and a field that spells the requested sequence |
| `SoupLogin.LoginRoundTrip` | crates/clients/soupbintcp/src/session.rs:541-550 | a login-accepted payload with a session in valid UTF-8 parses back to its session and sequence |
| `SoupReading.ReadIsNumbered` | crates/clients/soupbintcp/src/session.rs:292-363 | in the pure reading of any packets, outputs start with the login and data is numbered from its sequence on, in 64 bits that wrap |
| `SoupReading.ConsecutiveIff` | crates/clients/soupbintcp/src/session.rs:336-342 | the numbers run on without wrapping exactly when login sequence plus number of messages is at most 2^64 |
| `SoupReading.BrokenForGood` | crates/clients/soupbintcp/src/session.rs:270-363 | after a bad frame or a packet out of place nothing the server sends adds to the reading |
| `SoupReading.TakenIsPrefix` | crates/clients/soupbintcp/src/session.rs:270-363 | what was reported is a prefix of the reading of the whole stream, whatever is still to come |
| `SoupServer.ServerIsRead` | crates/clients/soupbintcp/src/session.rs:292-363 | for every server, on the octets it writes: the client reads the login answer, message i as number first + i with its own octets, each heartbeat, nothing of notes, and the end of the session with nothing after it; of a rejected login the reason alone; and no rule is broken |
| `SoupServer.MisplacedBeforeLogin` | crates/clients/soupbintcp/src/session.rs:292-330 | data, an end of session or a packet of a client before the login answer breaks the protocol, whatever follows, and is all that is told |
| `SoupServer.BadAnswerBreaks` | crates/clients/soupbintcp/src/session.rs:292-330 | a login answer too short, with a bad number or session, or without a reason breaks the protocol |
| `SoupServer.MisplacedInStream` | crates/clients/soupbintcp/src/session.rs:333-363 | a second login answer or a packet of a client in an open stream breaks the protocol there, after everything before it is told |
| `SoupServer.BadFrameBreaks` | crates/clients/soupbintcp/src/session.rs:270-288 | a frame of length zero, above the limit or with a letter of no packet breaks the protocol wherever it comes |
| `SoupSession.SoupBinClient.Queue` | crates/clients/soupbintcp/src/session.rs:133-142 | a packet that fits the length prefix is queued whole, a longer one is refused and changes nothing |
| `SoupSession.SoupBinClient.Flush` | crates/clients/soupbintcp/src/session.rs:190-205 | partial writes keep accepted octets plus buffer equal to the encodings of everything queued; it fails exactly when the transport does before it is full or all is written, otherwise the buffer is empty or the transport full, and the time is noted exactly when this emptied it |
| `SoupSession.SoupBinClient.TakePacket` | crates/clients/soupbintcp/src/session.rs:270-288 | takes the next packet off the buffer, or none, or the error, keeping delivered octets equal to packets taken plus buffer |
| `SoupSession.SoupBinClient.DispatchLogin` | crates/clients/soupbintcp/src/session.rs:292-330 | answers the login phase as the pure reading of the packets does, closing exactly on a rejection; an error means the octets delivered break the protocol there |
| `SoupSession.SoupBinClient.DispatchStream` | crates/clients/soupbintcp/src/session.rs:333-363 | reports stream packets as the pure reading does, numbering data, closing and dropping unsent octets exactly on end of session; an error means the octets delivered break the protocol there |
| `SoupSession.SoupBinClient.PollLogin` | crates/clients/soupbintcp/src/session.rs:462-486 | one poll before login answers as the reading does; it times out exactly when all is read at or past the deadline, closed with unsent octets dropped, and is idle only before it; an empty read is used up exactly when nothing more is to report, a failed one exactly when reported |
| `SoupSession.SoupBinClient.PollStream` | crates/clients/soupbintcp/src/session.rs:488-512 | a heartbeat goes out exactly when nothing is queued and sending was silent past the interval, before anything is read; the server times out exactly past its silence limit with nothing left to read; the time it was last heard changes exactly when octets came |
| `SoupSession.SoupBinClient.QueueLogout` | crates/clients/soupbintcp/src/session.rs:453-460 | queues a logout once and closes, and refuses on a closed session |
| `SoupSession.SoupBinClient.Poll` | crates/clients/soupbintcp/src/session.rs:422-512 | reports the next output of the reading; end of session only when closed before with nothing left to write, so every queued octet was accepted; idle only when all delivered octets are read and break no rule, one empty read used up or the script at its end; unless the transport fails, all is written or it is full; send and receive times are exact; it closes and drops exactly as its result says |
| `SoupSession.Start` | crates/clients/soupbintcp/src/session.rs:404-410 | opens with exactly the login request queued, whose octets are length, letter, user, password, session and sequence, and fails exactly when writing its 49 octets does |
| `SoupRun.Drive` | crates/clients/soupbintcp/src/session.rs:404-512 | for every transport and schedule of calls, one answer a call: what the answers report up to the first protocol error is a prefix of the reading of all the server sends, and all of it once an error is reported, which is only when the server breaks the protocol there; at rest it is the reading of all delivered; failures used up and failures answered are equally many, and so are empty reads and idle polls until the script of reads ends; a heartbeat answers exactly the polls of an open stream with nothing to write since longer than the interval after the last poll that emptied the buffer, unless the transport fails, a timeout only past its limit since the last poll that heard the server, and idleness only within it; the octets accepted open with the login request of the configuration; queued are the login and what the answers say, and the transport accepted a prefix of their encodings, all of it once a session that dropped nothing ended or a poll left the transport able to take more |
| `SoupRun.TellsServer` | crates/clients/soupbintcp/src/session.rs:292-512 | of any server, told by its own octets, the answers report a prefix of what it meant, and never blame it |
| `SoupRun.FinalIsFinal` | crates/clients/soupbintcp/src/session.rs:422-460 | in every lawful run data is refused exactly after an accepted logout, a rejected login, the end of the session or a timeout, and polls then report nothing new |
| `XdpProgram.DecodeOfBytes` | crates/transports/afxdp/src/xdp/program.rs:72-86 | the eight bytes of an instruction decode to it, for every register, 16-bit offset and 32-bit immediate |
| `XdpProgram.RedirectsExactlyUdp` | crates/transports/afxdp/src/xdp/program.rs:88-131 | for every frame, queue, map and bound sockets the loaded bytes run to an exit with every load inside context or frame and every jump forward, and redirect exactly whole-header IPv4 UDP frames, untagged or under one 802.1Q tag, whose queue has a socket |
| `UdpParse.FrameIsLocated` | crates/transports/core/src/decap.rs:242-308 | every frame that carries a datagram for the filter is accepted with exactly its payload, neither trailing octets nor padding, and its sender |
| `UdpParse.AcceptsExactlyDatagrams` | crates/transports/core/src/decap.rs:242-308 | a frame is accepted exactly when it is the encoding of some datagram for the filter |
| `UdpParse.RefusedExactly` | crates/transports/core/src/decap.rs:242-308 | each refused frame is refused for exactly the reason its octets give: not IPv4, a fragment, not for the filter, or cut short |
| `UdpParse.AcceptedIsRedirected` | crates/transports/afxdp/src/xdp/program.rs:88-131 | every frame the decapsulation accepts, for any port and address filter, is redirected by the program |
| `UdpDecap.BypassTransport.RecvBurst` | crates/transports/core/src/bypass/mod.rs:151-180 | returns frames or one error, never both, in the driver's order; an error met behind frames waits one call; nothing only when the driver was idle |
| `UdpDecap.UdpDecap.Deliver` | crates/transports/core/src/decap.rs:92-110 | hands over accepted frames in order while there is room and counts each refused one under its reason |
| `UdpDecap.UdpDecap.RecvBurst` | crates/transports/core/src/decap.rs:113-152 | datagrams, or one error and no datagram; nothing only when the driver was idle with no frame and no error held back |
| `UdpDecap.Balanced` | crates/transports/core/src/decap.rs:196-226 | every event is seen by the caller or counted under exactly one reason |
| `UdpDecap.TallyIsPerReason` | crates/transports/core/src/decap.rs:198-226 | each counter is the number of frames whose octets give that reason |
| `UdpDecap.Drive` | crates/transports/core/src/decap.rs:92-152 | for every driver, filter, burst and schedule, one result and batch a call: what the calls told, then what waits, is what the driver said without refused frames, in order; what it said, then what its script still holds, is the script it was given, followed only by silence; every event is told, waiting or counted under the reason its octets give; at most a burst of frames and one error wait, and nothing after a call that tells nothing |
| `SpscRing.LoadIsExact` | crates/transports/afxdp/src/ring.rs:108-117 | the wrapping 32-bit differences give exactly the room and the entries there are |
| `SpscRing.EveryInterleavingIsSound` | crates/transports/afxdp/src/ring.rs:65-168 | under every interleaving of both sides' loads, writes, reads and hand-overs, with any starting words: entries come out in order, each once, none before it is published, and no unreleased entry is overwritten |
| `SpscRing.StepRefinesQueue` | crates/transports/afxdp/src/ring.rs:108-168 | each step refines a bounded queue: a publish appends the batch written, a release removes the batch read, every other step does nothing to it |
| `RingCode.Ring.Produce` | crates/transports/afxdp/src/ring.rs:108-128 | with the reader running between any two accesses, writes as many items as there was room for at the load, in order, and publishes them |
| `RingCode.Ring.Consume` | crates/transports/afxdp/src/ring.rs:152-168 | with the writer running between any two accesses, passes on the entries published at the load, at most `max`, in order, and releases them |
| `Afxdp.LocateIsExact` | crates/transports/afxdp/src/driver.rs:300-312 | a located frame is exactly the descriptor's octets inside one slot, an overrun one runs past its slot, a foreign one lies outside every slot |
| `SlotPool.IndexPool.Frame` | crates/transports/core/src/pool/index.rs:101-115 | a frame is minted only for a slot in range, inside its stride, in no live frame and in no ring |
| `AfxdpCode.Rings.Refill` | crates/transports/afxdp/src/driver.rs:247-254 | every dropped slot goes back to the fill ring as the machine says: all of them fit, none stays owed or in the list of dropped slots, and the drain is given an empty list |
| `AfxdpCode.Rings.Collect` | crates/transports/afxdp/src/driver.rs:257-283 | does the machine's step: one descriptor becomes a frame of its octets inside its slot, is counted and recycled, or is only counted; the slot of a frame is nowhere else |
| `AfxdpCode.Rings.PollFrames` | crates/transports/afxdp/src/driver.rs:257-283 | drains the receive ring as the machine does, beside a kernel that runs between reads, and pushes exactly the frames that machine step yields |
| `AfxdpCode.Rings.Poll` | crates/transports/afxdp/src/driver.rs:130-187 | one poll, with the wakeup and its error, is the machine's poll: same state, same result, and exactly its frames in the batch |
| `Afxdp.RefillSound` | crates/transports/afxdp/src/driver.rs:247-254 | a refill keeps every slot in one place and every descriptor accounted for, and leaves nothing owed: the fill ring always has room |
| `Afxdp.PollSound` | crates/transports/afxdp/src/driver.rs:177-187 | a poll keeps every slot in one place and every descriptor accounted for as frame or count; frames only as many as there is room for, none only when the ring is empty or the batch full |
| `Afxdp.ExactlyOnePlace` | crates/transports/afxdp/src/driver.rs:1-8 | each slot is once in exactly one of fill ring, kernel, receive ring, live frames, freed list and free list |
| `Afxdp.EveryRunKeepsSlots` | crates/transports/afxdp/src/driver.rs:177-283 | for every pool, kernel, way of dropping frames, wakeups and schedule of polls: each slot is once in exactly one place, the frames the outcomes tell are those of the descriptors read, in the kernel's order, and a poll with room that tells none has read every descriptor delivered |
| `Afxdp.EveryWakeupIsReported` | crates/transports/afxdp/src/driver.rs:130-187 | over every run a poll that pushes frames wakes nobody, and the others use up the wakeups one by one, each reporting its own, failed or not |
| `AfxdpCode.Drive` | crates/transports/afxdp/src/driver.rs:177-283 | a whole life of the driver ends in the state, and with the outcomes, that the machine computes from the pool, the kernel's moves, the wakeups and the batch sizes |
| `ProvideRuns.RunIsMaximal` | crates/transports/io-uring/src/driver.rs:471-476 | the run counted from a place is contiguous and cannot be made longer |
| `ProvideRuns.LonelySlots` | crates/transports/io-uring/src/driver.rs:465-485 | slots no two of which are neighbours make as many runs as there are slots |
| `BufferRing.RingMem.Push` | crates/transports/io-uring/src/ring_mem.rs:107-119 | with a 16-bit wrapping tail, pushing overwrites no entry the kernel has not read |
| `BufferRing.RingMem.KernelTakes` | crates/transports/io-uring/src/ring_mem.rs:107-127 | the kernel finds the entries in the order they were pushed, each once |
| `UringSound.DatagramIsClassified` | crates/transports/io-uring/src/completion.rs:47-72 | the completion of a datagram is read as its buffer, its length or cut short, and as the end of the request exactly when the kernel is done with it |
| `UringSound.AnswerIsClassified` | crates/transports/io-uring/src/completion.rs:47-72 | an empty datagram, a lack of buffers and an error are read as such, with the end of the request as the kernel has it |
| `UringSound.FailuresAreErrors` | crates/transports/io-uring/src/driver.rs:184-217 | a failed provide and a failed request stop a poll with the errno of the kernel, and nothing else it completes does |
| `UringRuns.DeliveryGives` | crates/transports/io-uring/src/driver.rs:176-217 | a datagram the kernel answers with gives, once read, one frame of its buffer and length or is counted as cut short, and the kernel keeps exactly a multishot request it has more for |
| `UringRuns.AnswerGives` | crates/transports/io-uring/src/driver.rs:176-217 | other answers give no frame, only a lack of buffers is counted, and the kernel keeps exactly a multishot request it has more for |
| `IoUring.UringDriver.Settle` | crates/transports/io-uring/src/driver.rs:195-217 | a data completion becomes a frame whose slot is in no ring, list or other frame; others recycle a slot or count |
| `IoUring.UringDriver.Complete` | crates/transports/io-uring/src/driver.rs:176-219 | reads exactly the completions up to an error, a full batch or the end of the queue, as the machine does, and pushes exactly their frames |
| `IoUring.UringDriver.HandToRing` | crates/transports/io-uring/src/driver.rs:239-250 | every waiting slot goes to the buffer ring, behind those unread, without overwriting an unread entry |
| `IoUring.UringDriver.HandAsRuns` | crates/transports/io-uring/src/driver.rs:465-485 | the loop over the sorted list provides run after run up to the first failed push and leaves the rest, as the recursive hand-over of the machine does |
| `IoUring.UringDriver.Push` | crates/transports/io-uring/src/driver.rs:298-341 | queues a submission, entering the kernel once to make room; a failed entry and a queue that stays full are different errors |
| `IoUring.UringDriver.Poll` | crates/transports/io-uring/src/driver.rs:384-401 | one poll is the machine's poll: same state, same result, and exactly its frames in the batch |
| `IoUring.UringDriver.Drop` | crates/transports/io-uring/src/driver.rs:344-431 | receive memory is freed exactly when no request is queued, in the kernel or with its end unread |
| `UringSound.GiveBackSound` | crates/transports/io-uring/src/driver.rs:225-269 | handing slots over keeps each in one place and the armed count exact, and fails exactly when slots stay |
| `UringSound.TakeOneOwns` | crates/transports/io-uring/src/driver.rs:199-205 | the slot of a data completion is in range and in no frame, ring, queue or list |
| `UringSound.PollSound` | crates/transports/io-uring/src/driver.rs:384-401 | a poll, failed or not, keeps every slot in one place, the armed count exact and every completion read accounted for |
| `UringRuns.GiveBackFailsIff` | crates/transports/io-uring/src/driver.rs:225-341 | slots stay exactly when the path is the legacy one and the pushes for their runs fail, told from the room in the queue, the number of runs and the kernel's answers, with that error |
| `UringRuns.PollLeavesSlotsIff` | crates/transports/io-uring/src/driver.rs:384-401 | told from the state before a poll: slots stay for the next one exactly when the pushes for the runs of the slots dropped before and of datagrams cut short in it fail; completions are read up to an error, a full batch or the end; a completion error is reported before a refused push |
| `UringRuns.PollStarvedIff` | crates/transports/io-uring/src/driver.rs:72-101 | the fleet starves exactly from a lack of buffers read on until a slot is handed over, and a poll without frames or error says so exactly then |
| `UringRuns.BindFailsIff` | crates/transports/io-uring/src/driver.rs:121-164 | binding hands every slot over and arms the full depth, one request on the multishot path; it fails exactly when the first entry into the kernel does |
| `UringRuns.QueueIsLeast` | crates/transports/io-uring/src/driver.rs:126-131 | the submission queue is the least power of two with room for a full fleet, a provide and a cancellation |
| `UringRuns.PollHandsOut` | crates/transports/io-uring/src/driver.rs:384-401 | the slots of the frames a poll pushed are the last ones callers hold |
| `UringRuns.EveryRunKeepsSlots` | crates/transports/io-uring/src/driver.rs:121-401 | for every pool, path, depth, kernel and schedule: each slot is once in exactly one place, lost only if a provide failed; the armed count is exact; the frames the outcomes tell are those of the completions read, in the kernel's order; and a poll that succeeds with room left once the kernel is quiet has read all it posted |
| `UringRefused.RefusedProvideLeavesSlots` | crates/transports/io-uring/src/driver.rs:384-385 | one request, a queue of four and five dropped slots that are no neighbours: while the kernel is busy a poll reports the full queue, and the next poll drains into a list that is not empty, which debug builds reject |
| `UringTeardown.FreedOnlyWhenQuiet` | crates/transports/io-uring/src/driver.rs:344-380 | cancelling ends quiet exactly when no request is queued, in the kernel by its own account or with its end unread, and keeps every slot in one place |
| `UringTeardown.GivesUpOnlyAtDeadline` | crates/transports/io-uring/src/driver.rs:344-380 | while the kernel takes what it is given, cancelling gives up only at the deadline |
| `IoUring.Drive` | crates/transports/io-uring/src/driver.rs:121-431 | a whole life of the driver, from binding through polls to teardown, has the result of the bind, the outcomes, the final state and the freeing of memory that the machine computes from the pool, the kernel's moves and answers and the batch sizes |

## Left out

- Async drivers, tokio and mio wrappers, and cancellation: the synchronous path covers the machine.
- Sockets, mmap, `bpf()`, io_uring setup and probing, DPDK: I/O plumbing over code outside the repository.
- The compressed SoupBinTCP variant: inflate is a library.
- Raw pointers, reference counts and memory ordering: ownership is a multiset of slots, and a Release or Acquire access is one atomic step.
- Masking an index with a power of two less one is written as the remainder by that power.
- MoldOrder.DeliveredInOrder: does not model the stream id of messages released from the reorder ring beyond what the code assigns, the id of the datagram that closed the gap.
- MoldGaps.OneLegPartitionIff: claims nothing for runs that accept headers which leave no room below 2^64, where sums saturate or wrap.
- MoldLegs.SeveralLegsAccounted: does not claim that every message is delivered after a full ring, nor how often several legs report the same gap; the code promises neither.
- ReceiverCode.MoldUdpReceiver.Pump: does not send re-requests; `Recovery.Requester.SendDue` models that call on its own, and what it sends does not touch the receiver's state.
- Recovery.Requester.SendDue: does not claim that retransmissions arrive.
- UdpDecap.Driver.PollFrames: a driver of its own, with any answers; the two real drivers are modelled in `Afxdp` and `IoUring` and not plugged in.
- AfxdpCode.Rings.Poll: fill and receive ring are queues, justified by `SpscRing.StepRefinesQueue` and `RingCode.Ring`, not ring objects.
- IoUring.UringDriver.Poll: does not model the size of the completion queue; completions never overflow into the kernel's backlog, so a submission is entered exactly when one is queued.
- IoUring.UringDriver.Drop: the deadline is the end of the script of kernel entries, and slots of completions read at teardown count as lost.
- Arbiter statistics per stream, telemetry, tracing, configuration parsing and validation, error display.
- `VecPool`, the socket receive loop and the DPDK driver: the same ideas are covered above.

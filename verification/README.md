# bitfold: a verified model of the peer protocol engine

This project models the per-peer engine of bitfold, a reliable-UDP library, in Dafny 4.11 and proves
what its parts promise. `dafny verify dfyconfig.toml` checks all of it.

Each stateful component appears three times: a datatype whose functions say what an operation
does to its state, a class whose methods do it step by step as the source does and are proved equal to
those functions, and theorems about the functions over every run. Where 16-bit numbers wrap, the
theorems speak of absolute numbers (`nat`) and their names `n % 65536`.

- Numbers: `Numbers`, `Bits` (32-bit words as 32 booleans, with their numeric value), `SerialNumbers`,
  `Clock`, `Runs`.
- Acknowledgment: `SequenceBuffer` (the ring), `ReceiveHistory` (ring against absolute history),
  `Acknowledgment` (the handler), `AckProtocol` and `AckShortRuns` (two handlers and a network), `AckCommands` (what a peer
  acknowledges).
- Unsequenced packets: `Unsequenced` (the window, shifted in place), `UnsequencedHistory` (window against the
  set of delivered groups).
- Wire: `Command`, `Wire`, `Records`, `Encoder`, `Decoder`, `Codec` (round trips), `Framing` (compression
  marker and checksum).
- Sending: `Config`, `Queue`, `Packer`, `Fragmenter`, `Bandwidth`, `Flush`, `QueueLife` (a queue against what the
  receiver reads), `Pmtu`, `PmtuSearch`.
- Receiving: `Fragments`, `Channel`, `ChannelHistory`, `LateArrivals` and `SequencedHistory` (channels against absolute streams),
  `Processor`, `Handshake`, `Exchanges`, `Deliveries`, `EndToEnd`.
- `Peer`: the peer object with the methods of all of these, sending and receiving.
- `Sessions`: the session table and its index per IP address. `PeerSessions`: a peer as one value with the calls that
  the table makes, runs of such calls, and tables of peers. `SessionLives`: what each session goes through in a poll.
- `PeerSending`, `PeerBandwidth`, `PeerReceiving`, `PeerDelivery`: over runs of calls, what a peer sends and how far it
  goes, how much, what it tells its user, and how a packet gets from one user to another.

The main results:

- acknowledgments are sound and packets conserved: `AckProtocol.AcknowledgedWasAccepted`, `PacketsAreConserved`,
  `ExpireIsRightIff`, `AckCommands.AcknowledgmentsAreTrue`;
- no unsequenced packet twice and no timely one refused: `UnsequencedHistory.HandedUpOnce`, `NoTimelyPacketIsRefused`,
  `Deliveries.NoGroupTwice`;
- when ordered and sequenced delivery is right: `LateArrivals.OrderIsRightIff`, `Deliveries.OrderedUpIsOutputs`,
  `SequencedHistory.PassedInOrderIff`;
- what is packed and framed is read back, and each call sends what it can: `Codec.PacketRoundTripIff`,
  `Packer.PackIsExact`, `ReadBackIff`, `PeerSending.CallsConserveIff`, `SendGoesOn`;
- a packet arrives exactly when its fragments do, whole and in its channel if it is to be in order:
  `EndToEnd.PayloadArrivesIff`, `PeerDelivery.PacketArrivesIff`, `PeerReceiving.EmittedIsHandedUp`;
- the in-place window and rings are what they should be: `Unsequenced.UnsequencedState.MarkReceived`,
  `ReceiveHistory.RunKeepsSound`, `ArrivalKeepsExactIff`;
- the searches and limits of a peer: `PmtuSearch.SearchIsCorrect`, `FragmentSizeFollowsAnswers`,
  `PeerBandwidth.SentInASecond`, `LetsInIff`;
- sessions: `Processor.PacketIsLostIff`, `SessionLives.SessionGoesThroughItsOwn`, `Sessions.PollKeepsWithinLimit`,
  `PeerSessions.PeersAreCounted`.

Where the code and its own texts differ, the model follows the code:

- The bounded encoder logs that a datagram over the maximum leaves its commands queued
  (`crates/bitfold-peer/src/peer/encoder.rs:164-176`). They have been drained by then. `Packer.PackSplitsQueue` shows
  that this branch is never taken. When compression fails the selected commands are gone as well.
- Groups behind the unsequenced window are documented as duplicates. While the window is empty none is refused, and a first
  group past 32768 leaves it empty (`UnsequencedHistory.FreshWindowRecordsIff`).
- The comment on `dropped_packets` says that packets ahead of the ack are never dropped; they are from half a lap on, and
  packets more than half a lap behind are not (`AckProtocol.LostIff`).
- The heartbeat is meant for peers idle in both directions; nothing ever moves the time of the last send
  (`PeerSessions.HeartbeatIgnoresSending`).
- The handshake compares the server's session id with the client's own, so it succeeds only if the two are equal
  (`Handshake.HandshakeSucceedsIff`); the opening side never gets a Connect event
  (`PeerSessions.InitiatorAnnouncesNothing`).
- A delivered packet that comes in late takes the place of the next one with its number, and is handed up instead of it
  unless that one comes in between (`LateArrivals.OrderIsRightIff`).
- `enqueue_reliable_data` documents that it returns the number used; it never advances it.

## Model

| member | source | states |
|---|---|---|
| SerialNumbers.GreaterByDistance | crates/bitfold-protocol/src/sequence_buffer.rs:103-105 | The comparison depends only on the wrapped distance from the second number to the first, except at distance 32768, where the numerically larger counts as later. |
| SerialNumbers.Trichotomy | crates/bitfold-protocol/src/sequence_buffer.rs:103-110 | Every two numbers are ordered exactly one way or equal, also at the distance that section 3.2 of RFC 1982 leaves undefined. |
| SerialNumbers.OrderOfNames | crates/bitfold-protocol/src/sequence_buffer.rs:103-110 | For absolute numbers at most half a lap apart the 16-bit names are ordered as the numbers, save for one direction at distance 32768. |
| SerialNumbers.OrderOfNamesIsExact | crates/bitfold-protocol/src/sequence_buffer.rs:103-105 | Iff: up to one lap ahead, the larger number compares greater exactly below half a lap or, at exactly half, when its name is 32768 or more. |
| SequenceBuffer.SequenceBuffer.Insert | crates/bitfold-protocol/src/sequence_buffer.rs:39-51 | Inserting into the arrays is the ring specification: refused when too old, otherwise the passed slots are cleared and the entry is placed under its name. |
| SequenceBuffer.SequenceBuffer.AdvanceSequence | crates/bitfold-protocol/src/sequence_buffer.rs:73-78 | Moves the head exactly when the number is at or past it, clearing what is passed. |
| SequenceBuffer.SequenceBuffer.RemoveEntries | crates/bitfold-protocol/src/sequence_buffer.rs:80-95 | Either branch (a loop over the passed numbers, a reset of all slots) forgets exactly the passed names and keeps every other slot. |
| SequenceBuffer.SequenceBuffer.Remove | crates/bitfold-protocol/src/sequence_buffer.rs:63-71 | Removes and returns the entry held under exactly this name; otherwise nothing changes. |
| SequenceBuffer.SequenceBuffer.Exists | crates/bitfold-protocol/src/sequence_buffer.rs:54-60 | True exactly when the slot of this name holds this very name. |
| ReceiveHistory.ExistsAfterInsert | crates/bitfold-protocol/src/sequence_buffer.rs:39-95 | Which names the ring holds after an insertion, name by name, in terms of what it held before. |
| ReceiveHistory.NamedAfter | crates/bitfold-protocol/src/sequence_buffer.rs:39-95 | The same on absolute numbers: the new number, and those of the last lap that were held, are not passed and do not share its slot. |
| ReceiveHistory.ArrivalKeepsSound | crates/bitfold-protocol/src/sequence_buffer.rs:39-95 | A near arrival (within 32,734 of the head, so any within 32,000 of the newest) keeps every held name the name of an accepted number of the current lap. |
| ReceiveHistory.RunKeepsSound | crates/bitfold-protocol/src/sequence_buffer.rs:39-95 | Over every run of near arrivals, across any number of 16-bit wraps, no stale name of an earlier lap is ever reported. |
| ReceiveHistory.ArrivalKeepsExactIff | crates/bitfold-protocol/src/sequence_buffer.rs:39-60 | Iff: after an arrival the ring still equals the set of accepted numbers in its window exactly when the arrival evicts no other number of the window. |
| ReceiveHistory.NoCollisionBeforeWrap | crates/bitfold-protocol/src/sequence_buffer.rs:97-99 | Without a wrap 33 consecutive numbers never share a slot. |
| ReceiveHistory.RunKeepsExactBeforeWrap | crates/bitfold-protocol/src/sequence_buffer.rs:39-99 | Over every run without a wrap, `exists` agrees with the set of accepted numbers on the 33 below the head, both ways. |
| ReceiveHistory.ExactnessFailsAcrossWrap | crates/bitfold-protocol/src/sequence_buffer.rs:97-99 | The counterexample across a wrap: after 32000, 64000, 65505, 65536 the accepted 65505 is in the window but gone from the ring. |
| Acknowledgment.AcknowledgmentHandler.RemoteSequenceNum | crates/bitfold-protocol/src/acknowledgment.rs:56-58 | The name of the newest received number, 65535 before the first. |
| Acknowledgment.AcknowledgmentHandler.AckBitfield | crates/bitfold-protocol/src/acknowledgment.rs:101-113 | The loop of shifted masks sets bit i-1 exactly when the ring holds the number i before the newest. |
| Acknowledgment.AcknowledgmentHandler.ProcessIncoming | crates/bitfold-protocol/src/acknowledgment.rs:117-147 | The new state after a header: highest ack, ring, packets in flight and the number of round-trip samples. |
| Acknowledgment.AcknowledgmentHandler.ProcessOutgoing | crates/bitfold-protocol/src/acknowledgment.rs:150-167 | Puts the packet in flight under the next number and advances the number, wrapping. |
| Acknowledgment.AcknowledgmentHandler.DroppedPackets | crates/bitfold-protocol/src/acknowledgment.rs:174-202 | Removes and returns, in key order, the packets in flight that count as lost. |
| Acknowledgment.IncomingRemovesNamed | crates/bitfold-protocol/src/acknowledgment.rs:117-147 | A header takes out of flight exactly the packets that it names by its ack or a mask bit. |
| Acknowledgment.DropLostDropsSet | crates/bitfold-protocol/src/acknowledgment.rs:174-202 | The sorted walk removes exactly the set of lost packets and counts each once. |
| AckProtocol.DroppedAreAsSent | crates/bitfold-protocol/src/acknowledgment.rs:150-202 | After every history the packets returned as dropped are the very ones that were sent under the lost numbers, in the order of their names. |
| Acknowledgment.NamedIsNotLost | crates/bitfold-protocol/src/acknowledgment.rs:181-191 | Nothing that a header at the highest ack can name counts as lost. |
| Bits.WordsAreNumbers | crates/bitfold-protocol/src/acknowledgment.rs:101-113 | The 32-boolean words that stand for masks correspond one to one to u32 values. |
| AckProtocol.MaskBitWasAccepted | crates/bitfold-protocol/src/acknowledgment.rs:101-113 | Each set bit i-1 of the mask names the absolute packet newest - i, and that packet was really accepted. |
| AckProtocol.HeaderIsTruthful | crates/bitfold-protocol/src/acknowledgment.rs:56-113 | All that a header says (number, ack, mask) is true of its sender. |
| AckProtocol.SendConservesIff | crates/bitfold-protocol/src/acknowledgment.rs:150-167 | Iff: sending keeps the books balanced exactly when no packet is still in flight under the next number. |
| AckProtocol.LostIff | crates/bitfold-protocol/src/acknowledgment.rs:181-191 | Iff, for every packet within a lap of the highest ack: lost are those more than 32 and less than half a lap behind, those more than half a lap ahead but not within 32 of a whole lap, and at exactly half a lap those that the tie decides against. |
| AckProtocol.LostIsFarBehindIff | crates/bitfold-protocol/src/acknowledgment.rs:181-191 | Iff: being lost and being more than 32 behind agree exactly at the distances that RightDistance lists, however far ahead the packet is. |
| AckProtocol.ExpireIsRightIff | crates/bitfold-protocol/src/acknowledgment.rs:174-202 | Iff: dropping removes exactly the packets more than 32 behind the highest ack when and only when every packet in flight is at such a distance. |
| AckProtocol.StepKeepsInv | crates/bitfold-protocol/src/acknowledgment.rs:101-202 | Every step of two handlers on a lossy, duplicating, reordering network keeps the protocol invariant. |
| AckProtocol.AcknowledgedWasAccepted | crates/bitfold-protocol/src/acknowledgment.rs:101-147 | In every state of every run, across any number of wraps and for timely headers, a packet removed as acknowledged was accepted by the other side. |
| AckProtocol.PacketsAreConserved | crates/bitfold-protocol/src/acknowledgment.rs:117-202 | Iff, for one endpoint and every history of sends, drops and headers that may say anything and come from anyone: each packet sent is at every point exactly one of in flight, acknowledged and dropped, when and only when no packet is sent under a name still in flight. |
| AckProtocol.NothingNameableIsDropped | crates/bitfold-protocol/src/acknowledgment.rs:174-202 | In every state of every run that drops at right distances, all dropped packets are more than 32 behind, so no header at the highest ack could still name one. |
| AckShortRuns.AcknowledgedWasAccepted | crates/bitfold-protocol/src/acknowledgment.rs:101-147 | The same soundness with no assumption on timing at all, when each side leaves number 65535 unused (fewer than 65536 packets). |
| AckShortRuns.IdleHeaderAcknowledges | crates/bitfold-protocol/src/acknowledgment.rs:56-58 | Received by any endpoint, the header of a side that has received nothing acknowledges exactly a packet in flight under 65535. |
| AckShortRuns.IdleHeaderIsSoundIff | crates/bitfold-protocol/src/acknowledgment.rs:56-58 | Iff: an endpoint with no acknowledgments yet stays sound on it exactly when 65535 is not in flight. |
| Unsequenced.UnsequencedState.ShiftWords | crates/bitfold-peer/src/unsequenced.rs:119-133 | The in-place word shift moves every bit by 32 times the shift and clears what comes in. |
| Unsequenced.UnsequencedState.ShiftBits | crates/bitfold-peer/src/unsequenced.rs:135-142 | The in-place bit shift, with bits borrowed from the next word, moves every bit by the shift. |
| Unsequenced.StepsSlide | crates/bitfold-peer/src/unsequenced.rs:113-142 | The two shifts, with their guards, are one slide of the 1024 bits by the whole advance. |
| Unsequenced.SlidesCompose | crates/bitfold-peer/src/unsequenced.rs:113-142 | Sliding twice is sliding by the sum. |
| Unsequenced.UnsequencedState.MarkReceived | crates/bitfold-peer/src/unsequenced.rs:106-157 | The in-place marking equals advancing the window and setting one bit. |
| Unsequenced.UnsequencedState.IsDuplicate | crates/bitfold-peer/src/unsequenced.rs:71-102 | Equals the specification: an empty window refuses nothing, else the bit, else everything behind. |
| Unsequenced.UnsequencedState.NextOutgoingGroup | crates/bitfold-peer/src/unsequenced.rs:53-57 | Hands out consecutive numbers, wrapping, and changes nothing else. |
| UnsequencedHistory.DuplicateIff | crates/bitfold-peer/src/unsequenced.rs:71-102 | Iff: for a group g with B-32768 < g <= B+32768, a duplicate is reported exactly when g was delivered or g < B, B being the absolute window base. |
| UnsequencedHistory.ArrivalKeepsValid | crates/bitfold-peer/src/unsequenced.rs:71-157 | Every arrival in range keeps bit i set exactly when group B+i was delivered, and B at most max(0, newest - 512). |
| UnsequencedHistory.RunKeepsValid | crates/bitfold-peer/src/unsequenced.rs:71-157 | So does every run in range, across any number of wraps. |
| UnsequencedHistory.HandedUpOnce | crates/bitfold-peer/src/unsequenced.rs:71-157 | Over every run in range no group is handed up twice, none that did not arrive, and none delivered before the run. |
| UnsequencedHistory.NoTimelyPacketIsRefused | crates/bitfold-peer/src/unsequenced.rs:106-157 | Over every run in range a first arrival at most 512 behind the highest delivered group is handed up. |
| UnsequencedHistory.FreshWindowRecordsIff | crates/bitfold-peer/src/unsequenced.rs:71-157 | Iff: a fresh window records its first group exactly when it is at most 32768; a later one is handed up again on every repeat. |
| Encoder.EncodeCommandInto | crates/bitfold-protocol/src/command_codec/encoder.rs:17-142 | For every buffer and each of the 16 kinds, appends exactly the type byte and the body. |
| Encoder.EncodePatched | crates/bitfold-protocol/src/command_codec/encoder.rs:150-160 | The placeholder patched in place gives the command behind its 16-bit length, whatever was in the buffer. |
| Encoder.EncodePacketInto | crates/bitfold-protocol/src/command_codec/encoder.rs:145-163 | For every buffer and packet the buffer becomes buffer ++ packet encoding, byte for byte and without a size bound. |
| Encoder.EncodePacketAlone | crates/bitfold-protocol/src/command_codec/encoder.rs:296-310 | The plain encoder builds the same bytes, so the in-place one refines it. |
| Decoder.DecodeCommand | crates/bitfold-protocol/src/command_codec/decoder.rs:19-197 | The cursor reader equals the parser of the command grammar: same value, same bytes left, same failures. |
| Decoder.ReadPacket | crates/bitfold-protocol/src/command_codec/decoder.rs:200-228 | The decoding loop equals the parser of whole packets, error cases included. |
| Codec.EncodedSize | crates/bitfold-protocol/src/command_codec/encoder.rs:17-142 | The exact wire size of each kind, at least 4 bytes. |
| Codec.AcknowledgeRoundTrip | crates/bitfold-protocol/src/command_codec/decoder.rs:101-112 | An acknowledgment comes back with or without its optional send time, told apart only by where its slice ends. |
| Codec.CommandRoundTrip | crates/bitfold-protocol/src/command_codec/decoder.rs:19-197 | Each of the 16 kinds, encoded in at most 65535 bytes, is parsed back and uses up exactly its bytes. |
| Codec.PacketRoundTrip | crates/bitfold-protocol/src/command_codec/decoder.rs:200-228 | decode_packet(encode_packet(p)) == p for at most 255 commands of at most 65535 bytes each. |
| Codec.PacketRoundTripIff | crates/bitfold-protocol/src/command_codec/encoder.rs:296-310 | Iff: a packet survives exactly when its count fits one byte and each command its length field. |
| Codec.PacketSize | crates/bitfold-protocol/src/command_codec/encoder.rs:296-310 | A packet takes one byte and, per command, two more than the command. |
| Records.RecordsRoundTrip | crates/bitfold-protocol/src/command_codec/decoder.rs:200-228 | For any writer and parser of single records that undo each other, the length-prefixed sequence is read back. |
| Records.ReadBackIsSmall | crates/bitfold-protocol/src/command_codec/decoder.rs:200-228 | A packet read back unchanged has at most 255 records, each below 65536 bytes. |
| Framing.CompressWithBuffer | crates/bitfold-protocol/src/command_codec/compression.rs:22-81 | Whatever the output buffer held, it ends up as the specified marker and data, in each of the threshold, no-compression and smaller-only branches. |
| Framing.DecompressUndoesCompress | crates/bitfold-protocol/src/command_codec/compression.rs:22-124 | Decompression undoes every branch of compression, given library routines that undo each other. |
| Framing.CompressTakesSmaller | crates/bitfold-protocol/src/command_codec/compression.rs:22-83 | Below the threshold or without compression data goes plain; else in the smaller of its plain and its compressed form, and the marker says which. |
| Framing.AppendChecksumInPlace | crates/bitfold-protocol/src/command_codec/checksum.rs:21-26 | Extends the buffer by the checksum of what was in it. |
| Framing.ValidIffAppended | crates/bitfold-protocol/src/command_codec/checksum.rs:21-58 | Iff: validation returns a payload exactly for the payload with its checksum appended. |
| Framing.FrameRoundTrip | crates/bitfold-peer/src/peer/command_processor.rs:30-46 | Unframing undoes framing, with and without checksum. |
| Framing.FrameSize | crates/bitfold-protocol/src/command_codec/compression.rs:22-83 | A frame exceeds its data by at most the overhead the senders set aside, and by exactly that without compression. |
| Queue.EnqueueAllKeepsValid | crates/bitfold-peer/src/peer/mod.rs:487-507 | The waiting counter always equals the queued payload bytes and stays within the limit. |
| Queue.AllQueuedIff | crates/bitfold-peer/src/peer/mod.rs:487-507 | Iff: a batch is queued entirely and in order exactly when together with what waits it fits the limit. |
| Queue.RequeueKeepsAll | crates/bitfold-peer/src/peer/encoder.rs:132-140 | Putting the unselected tail back after a drain drops nothing and keeps order and counter. |
| Packer.FittingIsLongest | crates/bitfold-peer/src/peer/encoder.rs:93-108 | Iff: a non-empty prefix is within the selected count exactly when it fits, so the selection is the longest fitting prefix. |
| Packer.PackSplitsQueue | crates/bitfold-peer/src/peer/encoder.rs:56-179 | Queue before == selected prefix ++ queue after, in order and within its budget; the datagram is at most the effective maximum, so the final guard never drops one. |
| Packer.PackIsExact | crates/bitfold-peer/src/peer/encoder.rs:56-179 | Iff, in bytes: a datagram is at most max_size, or the receive buffer if a PMTU probe is at the head, and a prefix of the queue leaves in it exactly when with its frame and length fields it fits that same number. |
| Packer.PackConserves | crates/bitfold-peer/src/peer/encoder.rs:56-179 | Queue before == what the receiver decodes ++ queue after, when the maximum leaves room for fewer than 256 commands. |
| Packer.ReadBackIff | crates/bitfold-peer/src/peer/encoder.rs:56-179 | Iff, for every maximum: the receiver gets the selected commands exactly when they are at most 255 and each fits its length field. |
| Packer.TotalSizeAtLeast | crates/bitfold-peer/src/peer/encoder.rs:78-103 | n commands take at least 6n bytes. |
| Packer.FewAreSelected | crates/bitfold-peer/src/peer/encoder.rs:78-103 | Below 1536 bytes over the static overhead at most 255 commands are selected, each encodable. |
| Packer.CountWrapsAt256 | crates/bitfold-peer/src/peer/encoder.rs:93-140 | The bound is sharp: one byte more, and 256 empty commands leave the queue in a datagram that decodes to none. |
| Peer.Peer.EncodeQueuedCommandsBounded | crates/bitfold-peer/src/peer/encoder.rs:56-179 | The counting, draining, requeueing and encoding code equals the specified packing: same queue, same datagram, same None and error cases. |
| Peer.Peer.EncodeQueuedCommands | crates/bitfold-peer/src/peer/encoder.rs:12-47 | Empties the queue into one datagram of everything, or loses it when encoding fails. |
| Peer.Peer.CountFitting | crates/bitfold-peer/src/peer/encoder.rs:88-108 | The selection loop returns the specified number of fitting commands. |
| Peer.Peer.EnqueueCommand | crates/bitfold-peer/src/peer/mod.rs:487-507 | Appends the command and counts its payload, or drops it when that would exceed the limit; reports a queue of 256 or more. |
| Peer.Peer.DrainCommands | crates/bitfold-peer/src/peer/mod.rs:532-535 | Returns the whole queue and resets queue and counter. |
| Peer.Peer.EnqueueAckCommand | crates/bitfold-peer/src/peer/mod.rs:511-518 | Enqueues the acknowledgment of exactly what the handler has received. |
| Fragmenter.CeilDivIsCeiling | crates/bitfold-peer/src/peer/fragmenter.rs:72-74 | The number of fragments is the payload length over the budget, rounded up. |
| Fragmenter.ChunkCount | crates/bitfold-peer/src/peer/fragmenter.rs:68-82 | A payload is cut into that many chunks. |
| Fragmenter.ChunksAreSmall | crates/bitfold-peer/src/peer/fragmenter.rs:113-129 | Every chunk is non-empty and within the budget. |
| Fragmenter.ChunksConcat | crates/bitfold-peer/src/peer/fragmenter.rs:113-129 | The chunks in a row are the payload. |
| Fragmenter.ChunkAt | crates/bitfold-peer/src/peer/fragmenter.rs:113-117 | Chunk i is the slice that the source cuts from i times the budget on. |
| Fragmenter.CommandsFit | crates/bitfold-peer/src/peer/fragmenter.rs:11-252 | For every configuration and payload each command enqueued makes, with all overheads, a datagram within the cap. |
| Fragmenter.FitsAloneMeansFits | crates/bitfold-peer/src/peer/encoder.rs:78-108 | A command that fits by this arithmetic really makes a framed datagram within the cap. |
| Fragmenter.CarriesPayloadIff | crates/bitfold-peer/src/peer/fragmenter.rs:11-252 | Iff: the enqueued commands carry the payload exactly when the cap leaves a byte of room and either one command or at most max_fragments fragments suffice; in the other branches less or nothing. |
| Fragmenter.UnsequencedFitsIff | crates/bitfold-host/src/peer_session.rs:137-176 | Iff: the unsequenced chunks fit the cap exactly when it leaves room for one byte, since the budget is never below 1. |
| Peer.Peer.EnqueueData | crates/bitfold-peer/src/peer/fragmenter.rs:17-132 | The branches and the loop of the fragmenter enqueue exactly the specified commands, in order. |
| Peer.Peer.EnqueueReliableData | crates/bitfold-peer/src/peer/fragmenter.rs:11-132 | The same for reliable data, under the handler's own number, which it does not advance. |
| Peer.Peer.EnqueueUnreliableData | crates/bitfold-peer/src/peer/fragmenter.rs:136-252 | The same for unreliable data, under a fresh number that is advanced, wrapping. |
| Peer.Peer.EnqueueUnsequencedData | crates/bitfold-host/src/peer_session.rs:137-176 | The chunk loop enqueues the chunks under consecutive group numbers. |
| Peer.Peer.FlushCommands | crates/bitfold-host/src/peer_session.rs:184-201 | The flush loop ends and equals the specified flush (queue, bandwidth counter, datagrams) and keeps the peer valid. |
| Peer.Peer.RecordSend | crates/bitfold-peer/src/peer/mod.rs:158-180 | State, greeting and result of noting a send, the greeting put into the queue past the limit. |
| Peer.Peer.RecordRecv | crates/bitfold-peer/src/peer/mod.rs:184-212 | State and result of noting a receipt. |
| Peer.Peer.SendPacket | crates/bitfold-host/src/peer_session.rs:109-205 | The whole call, from the greeting of a new connection to the flush: new state of the peer and what it wants sent and announced. |
| Peer.Peer.Update | crates/bitfold-host/src/peer_session.rs:207-250 | The whole call: window check, heartbeat decision, flush and PMTU poll, in this order. |
| Peer.Peer.ReceivePacket | crates/bitfold-host/src/peer_session.rs:72-107 | The whole call: empty payload, bandwidth window and limit, the packet, and on success the receipt, the announcement and the packets handed up. |
| Flush.FlushKeepsValid | crates/bitfold-host/src/peer_session.rs:184-201 | A flush keeps the byte counter equal to the payload bytes queued and within the limit, whatever the library routines do. |
| Flush.FlushEmptiesQueue | crates/bitfold-host/src/peer_session.rs:184-201 | With unlimited bandwidth, commands that each fit and routines that work up to the largest datagram, a flush leaves the queue empty. |
| Flush.SendingEmptiesQueue | crates/bitfold-host/src/peer_session.rs:109-205 | Queueing any reliable or unreliable payload and flushing at the same cap leaves the queue empty: fragmenter and packer agree. |
| Flush.SendingUnsequencedEmptiesQueue | crates/bitfold-host/src/peer_session.rs:137-201 | So does queueing any unsequenced payload, once the cap leaves room for one byte of it. |
| Flush.RoutinesExist | crates/bitfold-protocol/src/command_codec/compression.rs:22-83 | Below 2 GiB routines as these theorems assume them are possible, for every configuration and algorithm. |
| Flush.FlushSendsIff | crates/bitfold-host/src/peer_session.rs:184-201 | Iff: with the check open a flush of a non-empty queue sends something exactly when the first command fits; otherwise everything stays as it was. |
| PeerSending.CallIsWithin | crates/bitfold-host/src/peer_session.rs:109-251 | Every datagram that a call of a peer sends is at most min(fragment size, receive buffer), unless a probe leads it, and then at most the receive buffer. |
| PeerSending.SendGoesOn | crates/bitfold-host/src/peer_session.rs:184-201 | After every send the queue is empty, the bandwidth used up, the head too large for any datagram, or a library routine failed. |
| PeerSending.UpdateGoesOn | crates/bitfold-host/src/peer_session.rs:224-247 | So it is after every update, before the next probe is queued. |
| PeerSending.CallsConserveIff | crates/bitfold-host/src/peer_session.rs:72-251 | Iff, over every run of calls of a peer: what a receiver reads from all datagrams it sends ++ what waits then == what waited before ++ what was accepted, exactly when each datagram is readable. |
| QueueLife.FlushConservesIff | crates/bitfold-host/src/peer_session.rs:184-201 | Iff: queue before == what the receiver reads from all datagrams ++ queue after, exactly when the routines work on each datagram and each holds at most 255 commands within their length fields. |
| QueueLife.SmallFlushIsReadable | crates/bitfold-host/src/peer_session.rs:184-201 | It is enough that no datagram has room for 256 commands. |
| QueueLife.QueueConservesIff | crates/bitfold-host/src/peer_session.rs:109-251 | Iff, over every life of a queue, enqueues and flushes at any caps and bandwidth in any order: what the receiver reads ++ what still waits == what was there ++ what was accepted, exactly when every flush is readable in that sense. |
| QueueLife.OversizeBlocksForever | crates/bitfold-host/src/peer_session.rs:184-201 | A head that fits none of the caps blocks for good: over every life nothing is sent and all that waits keeps waiting. |
| Flush.FlushIsGuarded | crates/bitfold-host/src/peer_session.rs:184-201 | Every datagram leaves with the bandwidth check open and within the receive buffer. |
| Bandwidth.BandwidthThrottle.UpdateBandwidthWindow | crates/bitfold-peer/src/bandwidth_throttle.rs:72-81 | Resets both counters and the window start exactly when a second has passed. |
| Bandwidth.BandwidthThrottle.RecordBytesSent | crates/bitfold-peer/src/bandwidth_throttle.rs:86-88 | Adds, saturating at the largest u32. |
| Bandwidth.WindowBound | crates/bitfold-peer/src/bandwidth_throttle.rs:72-107 | Over every guarded run of either direction, under limits that change but stay at most a given one, the true number of bytes of a window is bounded, though the counter saturates. |
| Bandwidth.SecondBound | crates/bitfold-peer/src/bandwidth_throttle.rs:72-107 | Any second overlaps at most two windows, so at most twice the bound. |
| Bandwidth.WindowBoundIsTight | crates/bitfold-peer/src/bandwidth_throttle.rs:86-107 | The bound is reached. |
| Pmtu.PmtuDiscovery.HandlePmtu | crates/bitfold-peer/src/pmtu_discovery.rs:110-179 | The timed method equals the specified poll: state, and the probe command or none. |
| Pmtu.PmtuDiscovery.ProcessReply | crates/bitfold-peer/src/pmtu_discovery.rs:184-197 | Accepts a reply exactly when its token is the outstanding one, raising the low bound. |
| PmtuSearch.StepKeepsBrackets | crates/bitfold-peer/src/pmtu_discovery.rs:110-197 | Every poll and reply keeps the answer between the bounds. |
| PmtuSearch.StepNarrows | crates/bitfold-peer/src/pmtu_discovery.rs:110-197 | A completed probe at least halves the distance between the bounds, rounding up; nothing widens it. |
| PmtuSearch.SearchIsCorrect | crates/bitfold-peer/src/pmtu_discovery.rs:110-197 | On a path that carries exactly the sizes up to M: always low <= M and min(M, H0) <= high, and after k completed probes high - low <= ceil((H0 - pmtu_min) / 2^k). |
| PmtuSearch.AtMostSixteenProbes | crates/bitfold-peer/src/pmtu_discovery.rs:110-197 | No run completes more than 16 probes, and after 16 the search has converged. |
| PmtuSearch.PollSettlesOrProbes | crates/bitfold-peer/src/pmtu_discovery.rs:130-197 | At convergence a poll sets the fragment size within the threshold of min(M, H0); before, it probes exactly when the interval has passed. |
| PmtuSearch.SearchSettles | crates/bitfold-peer/src/pmtu_discovery.rs:110-197 | In every run from the start, once the bounds are within the threshold a poll sets the fragment size within the threshold of min(M, H0); after 16 completed probes they are. |
| PmtuSearch.FragmentSizeFollowsAnswers | crates/bitfold-peer/src/pmtu_discovery.rs:118-197 | In every run from the start the fragment size is the largest size answered once there is an answer, before that the configured or the least one; a configured size that the path carries is never left for one that it does not. |
| PmtuSearch.ProbesWait | crates/bitfold-peer/src/pmtu_discovery.rs:110-197 | In every run a probe goes out only when the whole interval has passed since one was last sent, answered or given up. |
| PmtuSearch.ProbeIsGivenUpIff | crates/bitfold-peer/src/pmtu_discovery.rs:117-128 | Iff: a poll gives an outstanding probe up exactly when more than the retransmission timeout and 200 ms have passed, and the search goes on below its size. |
| Exchanges.ProbeIsAnswered | crates/bitfold-peer/src/pmtu_discovery.rs:184-206 | A probe that arrives, and whose answer arrives while it is outstanding, makes its size the low bound and the fragment size. |
| PmtuSearch.ProbeMovesBoundIff | crates/bitfold-peer/src/pmtu_discovery.rs:110-197 | Iff, for every configuration: an answered probe moves a bound exactly when the clamped bounds are at least 2 apart, one that times out exactly when they are not 0 and 1. |
| PmtuSearch.PositiveThresholdMoves | crates/bitfold-peer/src/pmtu_discovery.rs:130-197 | So at any threshold but 0 every completed probe moves a bound. |
| PmtuSearch.ProbeFillsItsSizeIff | crates/bitfold-peer/src/pmtu_discovery.rs:151-173 | Iff: without compression a lone probe frames to exactly its advertised size when that exceeds the overhead. |
| Fragments.CommandFragmentBuffer.AddFragment | crates/bitfold-peer/src/fragment_buffer.rs:86-88 | Stores the fragment under its index, replacing an earlier one. |
| Fragments.CommandFragmentBuffer.Reassemble | crates/bitfold-peer/src/fragment_buffer.rs:106-120 | The removing loop returns the fragments in index order, or none when one is missing. |
| Fragments.ReassemblesIff | crates/bitfold-peer/src/fragment_buffer.rs:93-121 | Iff: a payload comes out exactly when as many fragments as announced are there and none has an index past the count. |
| Channel.ChannelState.ProcessOrdered | crates/bitfold-peer/src/channel_state.rs:35-48 | The drain loop ends and returns what is ready, leaving the rest buffered. |
| SequencedHistory.NewerIff | crates/bitfold-peer/src/channel_state.rs:52-63 | Iff, on absolute numbers across wraps: a sequenced packet within half a lap passes exactly when it is not behind the latest one or its name is 0. |
| SequencedHistory.PassedInOrderIff | crates/bitfold-peer/src/channel_state.rs:52-63 | Iff, over every run in range: what is passed on never goes back exactly when no packet whose name is 0 came in late. |
| ChannelHistory.DueIsHeldIff | crates/bitfold-peer/src/channel_state.rs:35-48 | Iff: the buffer holds the number due exactly when that packet has arrived, and then its payload. |
| ChannelHistory.DrainDelivers | crates/bitfold-peer/src/channel_state.rs:42-45 | Draining hands up the stream from the number due to the next gap. |
| ChannelHistory.RunDelivers | crates/bitfold-peer/src/channel_state.rs:35-48 | Over every admissible run, across wraps, the outputs in a row are exactly the longest gap-free prefix of what arrived, in send order. |
| ChannelHistory.ShortStreamsAreAdmissible | crates/bitfold-peer/src/channel_state.rs:35-48 | With fewer than 65536 packets every order and every duplicate is admissible. |
| LateArrivals.OrderIsRightIff | crates/bitfold-peer/src/channel_state.rs:35-48 | Iff, over every run of a fresh channel, any numbers in any order: the outputs are at every point the stream up to the first gap when and only when, for each arrival of a packet delivered before or a lap or more ahead, the next packet of its name comes after it and before the gap reaches that one, and the packet itself likewise when it was ahead. (One direction for distinct payloads.) |
| LateArrivals.OwedIff | crates/bitfold-peer/src/channel_state.rs:35-48 | Iff: the numbers out of place are those that some arrival left so and that have not come since. |
| LateArrivals.AdmissibleIsInTime | crates/bitfold-peer/src/channel_state.rs:35-48 | The admissible runs are among these. |
| LateArrivals.InOrderLateIff | crates/bitfold-peer/src/channel_state.rs:35-48 | With the stream going on in order behind one late packet: right at every point exactly as long as the packet before the next of its name has not come. |
| LateArrivals.OvertakingIsHarmless | crates/bitfold-peer/src/channel_state.rs:35-48 | Out of order it may stay right beyond that, when the next packet of that name overtakes the one before. |
| Peer.Peer.ProcessUnsequenced | crates/bitfold-peer/src/peer/command_processor.rs:208-233 | The unsequenced arm drops duplicates, else marks and hands up. |
| Peer.Peer.ProcessUnreliableFragment | crates/bitfold-peer/src/peer/command_processor.rs:353-397 | The unreliable-fragment arm adds the fragment, and on completion removes the group and hands up its payload. |
| Peer.Peer.ProcessFragment | crates/bitfold-peer/src/peer/command_processor.rs:234-352 | The reliable-fragment arm, with its acknowledgment and channel. |
| Peer.Peer.ProcessReliable | crates/bitfold-peer/src/peer/command_processor.rs:88-151 | Notes the number, acknowledges, and hands up at once or through the channel. |
| Handshake.OnlyFirstConnectIsAnswered | crates/bitfold-peer/src/peer/command_processor.rs:403-438 | Over every run of commands at most one Connect is answered: the first, if the peer is idle and no Disconnect came before. |
| Handshake.FirstConnectIsKept | crates/bitfold-peer/src/peer/command_processor.rs:403-438 | The ids that the peer keeps are those of that Connect, whatever comes after it. |
| Handshake.HandshakeSucceedsIff | crates/bitfold-peer/src/peer/command_processor.rs:403-472 | Iff: an idle server answers the greeting of a client so that the client succeeds exactly when both drew the same session id; otherwise the client rejects the answer. |
| Exchanges.WindowIsAgreed | crates/bitfold-peer/src/peer/command_processor.rs:450-456 | The window that a client ends up with lies in its configured range and above the lower end of it is at most what either side named. |
| Peer.Peer.ProcessVerifyConnect | crates/bitfold-peer/src/peer/command_processor.rs:439-472 | The client side: ids and negotiated window are stored, then a foreign session id is an error. |
| Peer.Peer.ProcessCommand | crates/bitfold-peer/src/peer/command_processor.rs:62-513 | All 16 arms: the whole new state of the peer, its replies and the packets handed up. |
| Peer.Peer.ProcessCommandPacket | crates/bitfold-peer/src/peer/command_processor.rs:21-57 | Unframing, decoding and the command loop equal the specified processing, error cases included. |
| Processor.PacketIsLostIff | crates/bitfold-peer/src/peer/command_processor.rs:53-58 | Iff, for every peer and packet: the whole packet is lost, with what its earlier commands handed up, exactly when the peer is Connecting and the first VerifyConnect or Disconnect in it is a VerifyConnect with a foreign session id. |
| Processor.ReceiveIsRun | crates/bitfold-peer/src/peer/command_processor.rs:21-58 | For every other run of datagrams, what the peer hands up is what their commands do, one after another. |
| EndToEnd.ForeignLeavesGroup | crates/bitfold-peer/src/peer/command_processor.rs:62-512 | No command but a fragment under its number touches a fragment group. |
| EndToEnd.DeliveredWhenComplete | crates/bitfold-peer/src/peer/command_processor.rs:234-397 | A reliable or unreliable fragment delivers the payload exactly when with it all have come in, and does nothing before: an ordered payload is placed in its channel, any other handed up. |
| EndToEnd.CompleteRunDelivers | crates/bitfold-peer/src/peer/command_processor.rs:234-397 | In every order and with any duplicates, once all fragments have come in, exactly the completing one has delivered the payload. |
| EndToEnd.PayloadArrivesIff | crates/bitfold-peer/src/peer/fragmenter.rs:17-252 | Iff, for a reliable or unreliable payload fragmented, packed into bounded datagrams, framed and flushed so far at any caps and bandwidth, over any network that loses, duplicates and reorders: a fragment has delivered exactly the payload when and only when each fragment was in some datagram that arrived; otherwise no fragment has done anything. |
| EndToEnd.PayloadArrives | crates/bitfold-peer/src/peer/fragmenter.rs:17-252 | In particular once all fragments have left the queue and every datagram has arrived; and that is what the peer does unless a packet is rejected. |
| EndToEnd.ShortPayloadArrivesIff | crates/bitfold-peer/src/peer/fragmenter.rs:53-179 | Iff: a payload that fits one command is delivered when and only when some datagram with that command arrived; until one is sent the command waits in the queue. |
| PeerDelivery.PacketArrivesIff | crates/bitfold-host/src/peer_session.rs:109-205 | Iff, for every long reliable or unreliable packet that a user sends over a peer, whatever is called later and whichever datagrams arrive: the receiver gets exactly it when and only when each fragment was in some datagram that arrived; a reliable one in its channel under its number exactly if it was not sent unordered. |
| PeerDelivery.ShortPacketArrivesIff | crates/bitfold-host/src/peer_session.rs:109-205 | Iff: the same for packets of one command. |
| PeerDelivery.UnsequencedPacketArrives | crates/bitfold-host/src/peer_session.rs:137-176 | An unsequenced packet goes out in pieces that are its data in a row, under consecutive groups, and each is handed up by itself exactly where its group is no duplicate. |
| PeerDelivery.PacketIsEmitted | crates/bitfold-host/src/peer_session.rs:72-205 | From user to user: unless it is for a channel in order, a long packet sent over one peer is emitted by the other once all its fragments were let in. |
| PeerDelivery.NumbersGoOn | crates/bitfold-host/src/peer_session.rs:109-182 | Over every run of calls each unreliable packet takes the next number and each unsequenced piece the next group. |
| Deliveries.NoGroupTwice | crates/bitfold-peer/src/peer/command_processor.rs:208-233 | Over every run of commands of all kinds with groups in range, no unsequenced group is handed up twice. |
| Deliveries.OrderedUpIsOutputs | crates/bitfold-peer/src/peer/command_processor.rs:88-352 | Whatever other commands come in between, what a channel of the peer hands up, from whole packets and reassembled fragments, is what the channel alone would. |
| Deliveries.OrderedStreamIsHandedUp | crates/bitfold-peer/src/peer/command_processor.rs:88-352 | So over every run of commands of all kinds whose ordered packets come in time, the channel hands up exactly the stream up to the first gap. |
| Deliveries.SequencedUpIsPassed | crates/bitfold-peer/src/peer/command_processor.rs:169-207 | Over every run of commands of all kinds the sequenced packets handed up on a channel are those that the channel passes on. |
| PeerReceiving.EmittedIsHandedUp | crates/bitfold-host/src/peer_session.rs:72-107 | Over every run of calls that loses no packet to a rejection, the packets told to the user are exactly what the commands of the datagrams let in hand up, in order. |
| PeerReceiving.LastHeardIsLastCommand | crates/bitfold-peer/src/peer/command_processor.rs:62-68 | Over every run of calls a peer last heard when the last command came in that it let in. |
| PeerReceiving.PlainPacketConnectsIff | crates/bitfold-peer/src/peer/mod.rs:184-212 | Iff: a packet that has nothing to do with the connection connects and announces exactly a peer that answered a Connect, or a new one without the formal handshake. |
| AckCommands.AcknowledgmentsAreTrue | crates/bitfold-peer/src/peer/mod.rs:511-518 | Over every run of commands with near numbers, across wraps, each acknowledgment enqueued names the newest number and only numbers received by then, and in its window all of them while the ring is exact. |
| Sessions.IncrementIsExact | crates/bitfold-host/src/session_manager.rs:335-338 | Counting a new session keeps the per-IP index equal to the table. |
| Sessions.DecrementIsExact | crates/bitfold-host/src/session_manager.rs:342-350 | Uncounting a removed one does too, with no entry left at zero. |
| Sessions.InCountsIff | crates/bitfold-host/src/session_manager.rs:335-369 | Iff: an IP address has an entry exactly when it has sessions, and the entry is their number. |
| Sessions.PollKeepsWithinLimit | crates/bitfold-host/src/session_manager.rs:175-287 | Whatever arrives and whatever the user sends, no IP address exceeds a non-zero limit. |
| SessionLives.SessionGoesThroughItsOwn | crates/bitfold-host/src/session_manager.rs:175-287 | In every poll a session in the table goes through exactly the packets from its address and then the events for it, in order, and is then updated and asked, and stays exactly if it does not want to go. |
| SessionLives.NewcomerGoesThroughItsOwn | crates/bitfold-host/src/session_manager.rs:175-287 | A session that was not there is a new one that goes through exactly the packets from its address from the one on that brought it in, and then the events, or through the events from the one on that did. |
| SessionLives.AdmittedIff | crates/bitfold-host/src/session_manager.rs:203-217 | Iff: at each packet a new session is let in exactly when both limits are open, and no session goes. |
| SessionLives.EveryoneIsAdmitted | crates/bitfold-host/src/session_manager.rs:175-287 | With room, every address that anything comes from or goes to has a session that goes through all of it. |
| Sessions.CountIsSound | crates/bitfold-host/src/session_manager.rs:175-263 | For every kind of session that events do not establish: at every point of a poll the running count is at least the number of sessions on their way, never below zero, and packets alone never take it past the limit. |
| PeerSessions.PeersSettle | crates/bitfold-host/src/peer_session.rs:29-118 | Peers are of that kind. |
| PeerSessions.PeersAreCounted | crates/bitfold-host/src/session_manager.rs:175-263 | So the count of a table of peers is sound in every poll. |
| PeerSessions.SurvivorsAreAlive | crates/bitfold-host/src/session_manager.rs:265-284 | After a poll no peer is left that disconnected, is silent for too long or has too much in flight. |
| PeerSessions.PeerGoesForward | crates/bitfold-peer/src/peer/mod.rs:158-212 | Whatever a peer receives, sends and updates, its connection state never goes back. |
| PeerSessions.AnnouncedAtMostOnce | crates/bitfold-host/src/peer_session.rs:90-118 | Over every run of calls a peer announces its connection at most once. |
| PeerSessions.InitiatorAnnouncesNothing | crates/bitfold-host/src/peer_session.rs:90-118 | The side that opens the formal handshake announces nothing, whatever it gets in answer. |
| PeerSessions.HeartbeatIgnoresSending | crates/bitfold-host/src/peer_session.rs:213-222 | Iff, after every run of calls of a peer older than the interval: it pings exactly when it is established and has heard nothing for the interval, however much it has sent. |
| PeerSessions.CallsKeepValid | crates/bitfold-peer/src/peer/mod.rs:487-507 | Over every run of calls the byte counter is that of the queue and within the configured limit. |
| PeerBandwidth.WindowsAreBounded | crates/bitfold-host/src/peer_session.rs:72-251 | Over every run of calls of a peer, whatever the other side makes of its limits up to L, the bytes of one window are at most L - 1 + receive_buffer_max_size, sent and let in alike. |
| PeerBandwidth.SentInASecond | crates/bitfold-host/src/peer_session.rs:109-251 | Over every such run what the peer sends in any one second is at most twice that. |
| PeerBandwidth.ReceivedInASecond | crates/bitfold-host/src/peer_session.rs:72-89 | So is what the inbound limit lets in. |
| PeerBandwidth.LetsInIff | crates/bitfold-peer/src/bandwidth_throttle.rs:72-107 | Iff, after every run of calls: a datagram is let in exactly as long as less than the limit was let in since the window began, which begins anew after a second, or there is no limit. |
| PeerBandwidth.SentIsTrue | crates/bitfold-peer/src/bandwidth_throttle.rs:72-107 | The counter of what was sent is the true number of bytes of the window, up to its maximum. |
| PeerBandwidth.LimitsAreTheLast | crates/bitfold-peer/src/peer/command_processor.rs:473-485 | After a packet the limits are those that it set last, each for its direction. |
| Sessions.SessionManager.CanAcceptDuplicate | crates/bitfold-host/src/session_manager.rs:354-363 | The index lookup answers for the table. |
| Sessions.SessionManager.HandlePacket | crates/bitfold-host/src/session_manager.rs:197-217 | An inbound packet updates its session, or makes one exactly within both limits, with index and limit kept. |
| Sessions.SessionManager.HandleEvent | crates/bitfold-host/src/session_manager.rs:231-263 | A user event likewise, without the limit on unestablished sessions. |
| Sessions.SessionManager.SweepSessions | crates/bitfold-host/src/session_manager.rs:265-284 | Update, drop and removal loops, in whatever order, leave exactly the specified table with its index. |
| Sessions.SessionManager.ManualPoll | crates/bitfold-host/src/session_manager.rs:175-287 | After every poll the index equals the table and the limit holds. |

## Left out

Stated under conditions that the code does not check:

- AckProtocol.AcknowledgedWasAccepted: wraps are allowed for headers that arrive in time (arrivals near the
  newest, acks less than half a lap from the highest, named packets within the last 65536 sent);
  `AckShortRuns.AcknowledgedWasAccepted` needs no timing but fewer than 65536 packets.
- AckProtocol.NothingNameableIsDropped: drops are taken at right distances, `ExpireIsRightIff` being the exact condition.
- ReceiveHistory.RunKeepsExactBeforeWrap: not claimed across a wrap, where it is false
  (`ExactnessFailsAcrossWrap`).
- PmtuSearch.SearchIsCorrect: threshold at least 1 (`ProbeMovesBoundIff` shows when the search moves without it), distinct
  tokens, replies that echo the probe.
- PeerBandwidth.SentInASecond: the limit is never zero, which means none, and the receive buffer is below 4 GiB, the range
  of the byte counter; `ReceivedInASecond` also takes it that no datagram exceeds the receive buffer it was read into.
- SequencedHistory.PassedInOrderIff: arrivals within half a lap of the latest packet passed on.
- EndToEnd.PayloadArrivesIff: every flush so far readable (`QueueLife.QueueConservesIff` shows that nothing less will do for
  the queue as a whole), the payload accepted whole (`Fragmenter.CarriesPayloadIff`, `Queue.AllQueuedIff`), and no other
  fragments under the same number.
- PeerDelivery.PacketArrivesIff: the same conditions in terms of calls; a peer never advances its reliable number, so two long
  reliable packets on their way at once share one and are not covered.
- PeerDelivery.PacketIsEmitted: both sides agree on checksums, and no packet is lost to a rejection
  (`Processor.PacketIsLostIff`).
- AckCommands.AcknowledgmentsAreTrue: numbers come in within about half a lap of the newest.
- SessionLives.EveryoneIsAdmitted: no limit per address and room for a session per packet; `AdmittedIff` has no such
  condition.
- EndToEnd.CompleteRunDelivers: nothing is said after completion, where a late duplicate starts a new group.

Represented differently:

- Peer.Peer: the maps of channels and of fragment groups hold values that are moved into an object for each operation and
  back, as ownership allows in the source; other peers, statistics and buffer pools are not part of it.
- Peer.Peer.Update: the retransmission timeout, the time stamp of the ping, the random token and the random probe bytes are
  parameters.
- Peer.Peer.ProcessVerifyConnect: with a minimum window above the maximum the source's clamp panics; the model takes the
  minimum. The random peer id of the other side's reply is a parameter.
- Peer.Peer.ProcessCommand: of congestion control only the settings that ThrottleConfigure changes are kept; a
  `BandwidthLimit` changes the limits of the throttle, the copy in the configuration not being read again.
- Framing.CompressWithBuffer: zlib and LZ4 are functions that may fail, CRC-32 is a function; that decompression undoes
  compression is an assumption of the round trips. LZ4 refusing payloads of 2 GiB or more is part of it.
- Acknowledgment.AcknowledgmentHandler.ProcessIncoming: of congestion control only the number of samples, sent and
  lost packets is kept; a sample's time is not.
- Acknowledgment.AcknowledgmentHandler.DroppedPackets: keys are visited in sorted order as in the source.
- SequenceBuffer.SequenceBuffer.Insert: a capacity of zero, with which the source divides by zero, is excluded.
- Encoder.EncodeCommandInto: also stands for `encode_command`, which repeats the same match.
- Sessions.SessionManager.ManualPoll: sockets, interceptors, channels and the actions that sessions emit are left out; packets
  and events of a poll are given as sequences, and a session is an opaque value with its reactions as functions.
- PeerSessions.SurvivorsAreAlive: the events that `should_drop` emits are left out, its verdict is not.

Not modelled:

- Round-trip times, loss rates, throttle floats, statistics and the adjustment of the flow-control window by them: floating
  point or clamps.
- Retransmission: nothing in the engine sends a packet again; acknowledgments only take packets out of flight.
- `cleanup_stale_fragments`, `ChannelManager`, `BandwidthManager`, `ThroughputMonitoring`: unused by the engine or shallow.
- The time stamp of a `CommandPacket`, which is never sent.

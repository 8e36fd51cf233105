/** A remote peer: its command queue, what was received from it, and the methods that change them. */
module Peer {
  import opened Numbers
  import opened Clock
  import opened Bits
  import opened Wire
  import opened Command
  import opened Encoder
  import opened Codec
  import opened Framing
  import opened Config
  import opened Queue
  import opened Packer
  import opened Fragmenter
  import opened Flush
  import opened Bandwidth
  import opened Pmtu
  import opened Acknowledgment
  import opened Unsequenced
  import opened Fragments
  import opened Channel
  import opened Decoder
  import opened PeerSessions
  import P = Processor

  class Peer {
    const config: Config
    const libs: Libraries
    const pmtu: PmtuDiscovery
    const bandwidthThrottle: BandwidthThrottle
    const acknowledgeHandler: AcknowledgmentHandler
    const unsequencedState: UnsequencedState
    var commandQueue: seq<Command>
    var totalWaitingData: nat
    var nextUnreliableSequence: u16
    var state: P.PeerState
    var peerId: u16
    var incomingSessionId: u16
    const outgoingSessionId: u16
    var connectId: u32
    var lastHeard: Instant
    const lastSent: Instant
    var windowSize: u32
    var tuning: P.Tuning
    var commandFragments: map<u16, Group>
    var channelStates: map<byte, Channel>

    function Outgoing(): Queue
      reads this
    {
      Queue(commandQueue, totalWaitingData, config.maxWaitingData)
    }

    /** The largest datagram that the flush loop asks for. */
    function Cap(): nat
      reads pmtu
    {
      Min(pmtu.fragmentSize, config.receiveBufferMaxSize)
    }

    ghost predicate Valid()
      reads this, acknowledgeHandler, acknowledgeHandler.receivedPackets,
        acknowledgeHandler.receivedPackets.entrySequences, acknowledgeHandler.receivedPackets.entries,
        unsequencedState, unsequencedState.unsequencedWindow
    {
      acknowledgeHandler.Valid() && unsequencedState.Valid() && Outgoing().Valid() && pmtu.config == config
    }

    ghost function Incoming(): P.Inbox
      reads this, acknowledgeHandler, acknowledgeHandler.receivedPackets,
        acknowledgeHandler.receivedPackets.entrySequences, acknowledgeHandler.receivedPackets.entries,
        unsequencedState, unsequencedState.unsequencedWindow
    {
      P.Inbox(config, state, peerId, incomingSessionId, outgoingSessionId, connectId, lastHeard, windowSize, tuning,
              acknowledgeHandler.State(), unsequencedState.State(), commandFragments, channelStates)
    }

    ghost function Outbox(): P.Outbox
      reads this, bandwidthThrottle, pmtu
    {
      P.Outbox(Outgoing(), bandwidthThrottle.State(), pmtu.State())
    }

    ghost function State(): Remote
      requires Valid()
      reads this, acknowledgeHandler, acknowledgeHandler.receivedPackets,
        acknowledgeHandler.receivedPackets.entrySequences, acknowledgeHandler.receivedPackets.entries,
        unsequencedState, unsequencedState.unsequencedWindow, bandwidthThrottle, pmtu
    {
      Remote(Incoming(), Outbox(), nextUnreliableSequence, lastSent)
    }

    constructor (config: Config, libs: Libraries, outgoingSessionId: u16, connectId: u32, time: Instant)
      ensures Valid() && State() == NewRemote(config, outgoingSessionId, connectId, time)
      ensures this.config == config && this.libs == libs
    {
      this.config, this.libs := config, libs;
      pmtu := new PmtuDiscovery(config, time);
      bandwidthThrottle := new BandwidthThrottle(config.outgoingBandwidthLimit, config.incomingBandwidthLimit, time);
      acknowledgeHandler := new AcknowledgmentHandler();
      unsequencedState := new UnsequencedState();
      commandQueue, totalWaitingData, nextUnreliableSequence := [], 0, 0;
      state, peerId, incomingSessionId, lastHeard, lastSent := P.Idle, 0, 0, time, time;
      this.outgoingSessionId, this.connectId := outgoingSessionId, connectId;
      windowSize, tuning := config.initialWindowSize, P.InitialTuning(config);
      commandFragments, channelStates := map[], map[];
    }

    method EnqueueCommand(command: Command) returns (full: bool)
      requires Valid()
      modifies this`commandQueue, this`totalWaitingData
      ensures Valid() && Outgoing() == old(Outgoing()).Enqueue(command)
      ensures full <==> old(Outgoing()).Accepts(command) && 256 <= |commandQueue|
    {
      EnqueueKeepsValid(Outgoing(), command);
      var dataSize := command.DataSize();
      if config.maxWaitingData > 0 {
        var newTotal := totalWaitingData + dataSize;
        if newTotal > config.maxWaitingData {
          return false;
        }
      }
      totalWaitingData := totalWaitingData + dataSize;
      commandQueue := commandQueue + [command];
      full := |commandQueue| >= 256;
    }

    method DrainCommands() returns (drained: seq<Command>)
      requires Valid()
      modifies this`commandQueue, this`totalWaitingData
      ensures Valid() && drained == old(commandQueue) && Outgoing() == old(Outgoing()).Drained()
    {
      totalWaitingData := 0;
      drained := commandQueue;
      commandQueue := [];
    }

    /** Encodes, compresses and appends the checksum. */
    method EncodeDatagram(commands: seq<Command>) returns (r: Result<bytes>)
      ensures r == Datagram(libs, config, commands)
    {
      var scratch := new Buffer();
      var final := new Buffer();
      EncodePacketInto(scratch, commands);
      assert scratch.data == EncodePacket(commands);
      var ok := CompressWithBuffer(libs, scratch.data, config.compression, config.compressionThreshold, final);
      if !ok {
        return Err;
      }
      if config.useChecksums {
        AppendChecksumInPlace(libs, final);
      }
      return Ok(final.data);
    }

    method EncodeQueuedCommands() returns (r: Result<bytes>)
      requires Valid()
      modifies this`commandQueue, this`totalWaitingData
      ensures Valid() && (Outgoing(), r) == PackAll(libs, config, old(Outgoing()))
    {
      var commands := DrainCommands();
      r := EncodeDatagram(commands);
    }

    static method EncodedLength(command: Command) returns (n: nat)
      ensures n == command.WireSize()
    {
      var encoded := new Buffer();
      EncodeCommandInto(encoded, command);
      EncodedSize(command);
      n := |encoded.data|;
    }

    /** Counts the commands from the front of the queue that fit. */
    method CountFitting(staticOverhead: nat, maxSize: nat) returns (selectedCount: nat)
      ensures selectedCount == Fitting(commandQueue, staticOverhead, maxSize) <= |commandQueue|
    {
      var aggregatedLen: nat := 0;
      selectedCount := 0;
      while selectedCount < |commandQueue|
        invariant selectedCount <= |commandQueue|
        invariant Fitting(commandQueue, staticOverhead, maxSize)
          == selectedCount + Fitting(commandQueue[selectedCount..], staticOverhead + aggregatedLen, maxSize)
      {
        var encodedLen := EncodedLength(commandQueue[selectedCount]);
        var cmdTotal := 2 + encodedLen;
        if staticOverhead + aggregatedLen + cmdTotal > maxSize {
          return;
        }
        aggregatedLen := aggregatedLen + cmdTotal;
        selectedCount := selectedCount + 1;
      }
    }

    method EncodeQueuedCommandsBounded(maxSize: nat) returns (r: Result<Option<bytes>>)
      requires Valid()
      modifies this`commandQueue, this`totalWaitingData
      ensures Valid() && (Outgoing(), r) == PackBounded(libs, config, old(Outgoing()), maxSize)
    {
      if |commandQueue| == 0 {
        return Ok(None);
      }
      var limit := if commandQueue[0].PMTUProbe? then config.receiveBufferMaxSize else maxSize;
      var staticOverhead := 1 + (if config.compression.Lz4? then 5 else 1) + (if config.useChecksums then 4 else 0);
      var selectedCount := CountFitting(staticOverhead, limit);
      if selectedCount == 0 {
        return Ok(None);
      }
      var datagram :- EncodeFirst(selectedCount);
      return Ok(if |datagram| > limit then None else Some(datagram));
    }

    /** Encodes the first `count` commands and queues the rest again. */
    method EncodeFirst(count: nat) returns (r: Result<bytes>)
      requires Valid() && count <= |commandQueue|
      modifies this`commandQueue, this`totalWaitingData
      ensures Valid() && Outgoing() == old(Outgoing()).Drained().EnqueueAll(old(commandQueue)[count..])
      ensures r == Datagram(libs, config, old(commandQueue)[..count])
    {
      var drained := DrainCommands();
      Requeue(drained[count..]);
      r := EncodeDatagram(drained[..count]);
    }

    method Requeue(commands: seq<Command>)
      requires Valid()
      modifies this`commandQueue, this`totalWaitingData
      ensures Valid() && Outgoing() == old(Outgoing()).EnqueueAll(commands)
    {
      ghost var q := Outgoing();
      QueuedNone(q, commands);
      for i := 0 to |commands|
        invariant Valid() && Queued(q, commands, i, Outgoing())
      {
        QueuedNext(q, commands, i, Outgoing());
        var _ := EnqueueCommand(commands[i]);
      }
      QueuedAll(q, commands, Outgoing());
    }

    /** Enqueues a payload in one command or, if it must be, in fragments. */
    method EnqueueData(style: Style, data: bytes)
      requires Valid()
      modifies this`commandQueue, this`totalWaitingData
      ensures Valid() && Outgoing() == old(Outgoing()).EnqueueAll(style.Commands(config, Cap(), data))
    {
      var perPacketOverhead := 1 + (if config.compression.Lz4? then 5 else 1) + (if config.useChecksums then 4 else 0);
      var room := SaturatingSub(SaturatingSub(Cap(), perPacketOverhead), 2);
      var maxPayload := SaturatingSub(room, style.SingleHeader());
      if maxPayload < 1 {
        return;
      }
      if |data| <= maxPayload {
        EnqueueOnly(style.Single(data));
        return;
      }
      var fragmentPayload := SaturatingSub(room, style.FragmentHeader());
      if fragmentPayload < 1 {
        return;
      }
      var totalFragments := CeilDiv(|data|, fragmentPayload);
      if totalFragments > 255 {
        return;
      }
      if totalFragments > config.maxFragments {
        EnqueueOnly(style.Fragment(0, 1, data[..Min(fragmentPayload, |data|)]));
        return;
      }
      ChunkCount(data, fragmentPayload);
      EnqueueFragments(style, data, fragmentPayload, totalFragments);
    }

    method EnqueueFragments(style: Style, data: bytes, fragmentPayload: nat, totalFragments: byte)
      requires Valid() && 0 < fragmentPayload && data != [] && |Chunks(data, fragmentPayload)| == totalFragments
      modifies this`commandQueue, this`totalWaitingData
      ensures Valid() && Outgoing() == old(Outgoing()).EnqueueAll(style.FragmentAll(Chunks(data, fragmentPayload)))
    {
      ghost var cs := style.FragmentAll(Chunks(data, fragmentPayload));
      ghost var q := Outgoing();
      QueuedNone(q, cs);
      for fragmentId := 0 to totalFragments
        invariant Valid() && Queued(q, cs, fragmentId, Outgoing())
      {
        var piece := Slice(data, fragmentPayload, fragmentId);
        QueuedNext(q, cs, fragmentId, Outgoing());
        var _ := EnqueueCommand(style.Fragment(fragmentId, totalFragments, piece));
      }
      QueuedAll(q, cs, Outgoing());
    }

    static method Slice(data: bytes, fragmentPayload: nat, fragmentId: nat) returns (piece: bytes)
      requires 0 < fragmentPayload && data != [] && fragmentId < |Chunks(data, fragmentPayload)|
      ensures piece == Chunks(data, fragmentPayload)[fragmentId]
    {
      ChunkAt(data, fragmentPayload, fragmentId);
      OffsetIsProduct(fragmentId, fragmentPayload);
      OffsetIsProduct(fragmentId + 1, fragmentPayload);
      var start := fragmentId * fragmentPayload;
      var end := Min((fragmentId + 1) * fragmentPayload, |data|);
      piece := data[start..end];
    }

    method EnqueueOnly(command: Command)
      requires Valid()
      modifies this`commandQueue, this`totalWaitingData
      ensures Valid() && Outgoing() == old(Outgoing()).EnqueueAll([command])
    {
      assert [command][1..] == [];
      var _ := EnqueueCommand(command);
    }

    /** Straight into the queue, which a command without payload gets into anyway. */
    method EnqueuePastLimit(command: Command)
      requires Valid() && command.DataSize() == 0
      modifies this`commandQueue
      ensures Valid() && Outgoing() == old(Outgoing()).EnqueueAll([command])
    {
      PassesLimit(Outgoing(), command);
      commandQueue := commandQueue + [command];
    }

    method EnqueueReliableData(channelId: byte, data: bytes, ordered: bool) returns (number: u16)
      requires Valid()
      modifies this`commandQueue, this`totalWaitingData
      ensures Valid() && number == acknowledgeHandler.sequenceNumber
      ensures Outgoing()
        == old(Outgoing()).EnqueueAll(ReliableData(channelId, number, ordered).Commands(config, Cap(), data))
    {
      number := acknowledgeHandler.sequenceNumber;
      EnqueueData(ReliableData(channelId, number, ordered), data);
    }

    method EnqueueUnreliableData(channelId: byte, data: bytes) returns (number: u16)
      requires Valid()
      modifies this`commandQueue, this`totalWaitingData, this`nextUnreliableSequence
      ensures Valid() && number == old(nextUnreliableSequence) && nextUnreliableSequence == WrappingAdd(number, 1)
      ensures Outgoing() == old(Outgoing()).EnqueueAll(UnreliableData(channelId, number).Commands(config, Cap(), data))
    {
      number := nextUnreliableSequence;
      nextUnreliableSequence := WrappingAdd(nextUnreliableSequence, 1);
      EnqueueData(UnreliableData(channelId, number), data);
    }

    /** One round of the chunking loop. */
    method EnqueueNext(channelId: byte, chunk: bytes, ghost job: Chunking, ghost n: nat, ghost offset: nat)
      requires Valid() && job.HasCome(n, offset, Outgoing(), NextGroup()) && offset < |job.data|
      requires channelId == job.channelId && chunk == job.data[offset..job.End(offset)]
      modifies this`commandQueue, this`totalWaitingData, unsequencedState`outgoingUnsequencedGroup
      ensures Valid() && job.HasCome(n + 1, job.End(offset), Outgoing(), NextGroup())
    {
      ChunkingGoesOn(job, n, offset, Outgoing(), NextGroup());
      var unsequencedGroup := unsequencedState.NextOutgoingGroup();
      var _ := EnqueueCommand(SendUnsequenced(channelId, unsequencedGroup, chunk));
    }

    function NextGroup(): u16
      reads this, unsequencedState
    {
      unsequencedState.outgoingUnsequencedGroup
    }

    /** The chunking loop for unsequenced payloads. */
    method EnqueueChunks(channelId: byte, data: bytes, maxPayload: nat)
      requires Valid() && data != [] && 0 < maxPayload
      modifies this`commandQueue, this`totalWaitingData, unsequencedState`outgoingUnsequencedGroup
      ensures Valid() && NextGroup() == WrappingAdd(old(NextGroup()), Wrap(|Chunks(data, maxPayload)|))
      ensures Outgoing()
        == old(Outgoing()).EnqueueAll(Numbered(channelId, old(NextGroup()), Chunks(data, maxPayload)))
    {
      ghost var job := Chunking(channelId, NextGroup(), data, maxPayload, Outgoing());
      ghost var n := 0;
      var offset := 0;
      ChunkingStarts(job);
      while offset < |data|
        invariant Valid() && job.HasCome(n, offset, Outgoing(), NextGroup())
      {
        var end := offset + Min(maxPayload, |data| - offset);
        EnqueueNext(channelId, data[offset..end], job, n, offset);
        offset := end;
        n := n + 1;
      }
      ChunkingEnds(job, n, offset, Outgoing(), NextGroup());
    }

    method EnqueueUnsequencedData(channelId: byte, data: bytes)
      requires Valid()
      modifies this`commandQueue, this`totalWaitingData, unsequencedState`outgoingUnsequencedGroup
      ensures Valid()
      ensures
        var cs := UnsequencedCommands(config, Cap(), channelId, old(NextGroup()), data);
        Outgoing() == old(Outgoing()).EnqueueAll(cs) && NextGroup() == WrappingAdd(old(NextGroup()), Wrap(|cs|))
    {
      var perPacketOverhead := 1 + (if config.compression.Lz4? then 5 else 1) + (if config.useChecksums then 4 else 0);
      var maxPayload := Max(1, SaturatingSub(SaturatingSub(SaturatingSub(Cap(), perPacketOverhead), 2), 6));
      if data != [] {
        EnqueueChunks(channelId, data, maxPayload);
      }
    }

    /** Sends datagrams while there are commands and the bandwidth check is open. */
    method FlushCommands() returns (sent: seq<bytes>)
      requires Valid()
      modifies this`commandQueue, this`totalWaitingData, bandwidthThrottle
      ensures Valid() && (State(), sent) == old(State()).Flushes(libs)
    {
      ghost var all := FlushAll(libs, config, Cap(), Outgoing(), bandwidthThrottle.State());
      LeadsToStart(libs, config, Cap(), Outgoing(), bandwidthThrottle.State());
      sent := [];
      var canSend := bandwidthThrottle.CanSendWithinBandwidth();
      while |commandQueue| > 0 && canSend
        invariant Valid() && canSend == bandwidthThrottle.State().CanSend()
        invariant LeadsTo(libs, config, Cap(), Outgoing(), bandwidthThrottle.State(), sent, all)
        decreases |commandQueue|
      {
        LeadsToNext(libs, config, Cap(), Outgoing(), bandwidthThrottle.State(), sent, all);
        var r := EncodeQueuedCommandsBounded(Cap());
        if r.Err? || r.value.None? {
          return;
        }
        bandwidthThrottle.RecordBytesSent(Low32(|r.value.value|));
        sent := sent + [r.value.value];
        canSend := bandwidthThrottle.CanSendWithinBandwidth();
      }
      LeadsToEnd(libs, config, Cap(), Outgoing(), bandwidthThrottle.State(), sent, all);
    }

    // ----- the calls of the session table -----

    /** Notes that a packet is sent; the first one opens the handshake. */
    method RecordSend() returns (connected: bool)
      requires Valid()
      modifies this`state, this`commandQueue
      ensures Valid() && Incoming() == old(Incoming()).RecordSend()
      ensures Outgoing() == old(Outgoing()).EnqueueAll(old(Incoming()).Greeting())
      ensures connected == (!old(Incoming()).IsEstablished() && Incoming().IsEstablished())
    {
      var wasEst := state == P.Connected || state == P.ConnectionSucceeded;
      if state == P.Idle {
        state := P.Connecting;
        if config.useConnectionHandshake {
          EnqueuePastLimit(Connect(config.channelCount, 1400, 1, outgoingSessionId, connectId));
        }
      } else if state == P.ConnectionSucceeded {
        state := P.Connected;
      }
      connected := !wasEst && (state == P.Connected || state == P.ConnectionSucceeded);
    }

    /** Notes that a packet was received. */
    method RecordRecv() returns (connected: bool)
      requires Valid()
      modifies this`state
      ensures Valid() && Incoming() == old(Incoming()).RecordRecv()
      ensures connected == (!old(Incoming()).IsEstablished() && Incoming().IsEstablished())
    {
      var wasEst := state == P.Connected || state == P.ConnectionSucceeded;
      if state == P.Idle || state == P.Connecting {
        if !config.useConnectionHandshake {
          state := P.Connected;
        }
      } else if state == P.AcknowledgingConnect {
        state := P.Connected;
      }
      connected := !wasEst && (state == P.Connected || state == P.ConnectionSucceeded);
    }

    /** Enqueues a packet from the user as its delivery guarantee asks. */
    method EnqueuePacket(packet: P.Packet)
      requires Valid()
      modifies this`commandQueue, this`totalWaitingData, this`nextUnreliableSequence,
        unsequencedState`outgoingUnsequencedGroup
      ensures Valid() && State() == old(State()).Queues(old(State()).CommandsFor(packet)).Numbered(packet)
    {
      match packet.delivery {
        case Reliable =>
          var _ := EnqueueReliableData(packet.channelId, packet.data, packet.ordering != Unordered);
        case Unreliable =>
          if packet.ordering == Acknowledgment.Unsequenced {
            EnqueueUnsequencedData(packet.channelId, packet.data);
          } else {
            var _ := EnqueueUnreliableData(packet.channelId, packet.data);
          }
      }
    }

    /** `process_event` */
    method SendPacket(packet: P.Packet) returns (actions: seq<Action>)
      requires Valid()
      modifies this`state, this`commandQueue, this`totalWaitingData, this`nextUnreliableSequence,
        unsequencedState`outgoingUnsequencedGroup, bandwidthThrottle
      ensures Valid() && (State(), actions) == old(State()).Send(libs, packet)
    {
      ghost var r := State();
      var connected := RecordSend();
      actions := if connected then [EmitConnect] else [];
      ghost var greeted := State();
      EnqueuePacket(packet);
      SendInParts(r, greeted, packet);
      var sent := FlushCommands();
      actions := actions + Transmits(sent);
    }

    /** Pings a connected peer after the configured interval. */
    method Heartbeat(time: Instant, timestamp: u32)
      requires Valid()
      modifies this`commandQueue, this`totalWaitingData
      ensures Valid() && State() == old(State()).Queues(if old(State()).IsQuiet(time) then [Ping(timestamp)] else [])
    {
      if (state == P.Connected || state == P.ConnectionSucceeded) && config.heartbeatInterval.Some? {
        var interval := config.heartbeatInterval.value;
        if Since(time, lastSent) >= interval && Since(time, lastHeard) >= interval {
          EnqueueOnly(Ping(timestamp));
        }
      }
    }

    /** `update`: checks the bandwidth window, pings if it has been quiet, flushes, and then polls the PMTU search. */
    method Update(time: Instant, outside: Outside) returns (actions: seq<Action>)
      requires Valid()
      modifies this`commandQueue, this`totalWaitingData, bandwidthThrottle, pmtu
      ensures Valid() && (State(), actions) == old(State()).Update(libs, time, outside)
    {
      var _ := bandwidthThrottle.UpdateBandwidthWindow(time);
      Heartbeat(time, outside.timestamp);
      var sent := FlushCommands();
      actions := Transmits(sent);
      PollPmtu(time, outside);
    }

    /** Polls the PMTU search and queues the probe that it wants sent. */
    method PollPmtu(time: Instant, outside: Outside)
      requires Valid()
      modifies this`commandQueue, this`totalWaitingData, pmtu
      ensures Valid() && State() == old(State()).Polls(time, outside)
    {
      var probe := pmtu.HandlePmtu(time, outside.rto, outside.token, outside.noise);
      if probe.Some? {
        EnqueueOnly(probe.value);
      }
    }

    /** `disconnect` */
    method Disconnect()
      requires Valid()
      modifies this`state, this`commandQueue
      ensures Valid() && State() == old(State()).Disconnect()
    {
      if state != P.Disconnecting && state != P.Zombie {
        state := P.Disconnecting;
        EnqueuePastLimit(Command.Disconnect(0));
      }
    }

    // ----- incoming commands -----

    method EnqueueAckCommand(sentTime: Option<u32>)
      requires Valid()
      modifies this`commandQueue, this`totalWaitingData
      ensures Valid() && Outgoing() == old(Outgoing()).EnqueueAll([old(Incoming()).AckCommand(sentTime)])
    {
      var number := acknowledgeHandler.RemoteSequenceNum();
      var mask := acknowledgeHandler.AckBitfield();
      EnqueueOnly(Acknowledge(number, ToU32(mask), sentTime));
    }

    /** Adds a fragment; when that completes its group, takes the group out and puts its payload together. */
    method TakeFragment(number: u16, start: Group, fragmentId: byte, data: bytes)
      returns (buffer: CommandFragmentBuffer, payload: Option<bytes>)
      requires Valid()
      modifies this`commandFragments
      ensures Valid() && Incoming() == old(Incoming()).AddFragment(number, start, fragmentId, data)
      ensures
        var g := old(Incoming()).Joined(number, start, fragmentId, data);
        payload == g.Reassemble() && buffer.channelId == g.channelId && buffer.ordered == g.ordered
    {
      buffer, payload := JoinFragment(number, start, fragmentId, data);
    }

    method JoinFragment(number: u16, start: Group, fragmentId: byte, data: bytes)
      returns (buffer: CommandFragmentBuffer, payload: Option<bytes>)
      modifies this`commandFragments
      ensures
        var g := P.GroupOf(old(commandFragments), number, start).Add(fragmentId, data);
        && commandFragments == P.Settle(old(commandFragments), number, g)
        && payload == g.Reassemble() && buffer.channelId == g.channelId && buffer.ordered == g.ordered
    {
      if number in commandFragments {
        buffer := new CommandFragmentBuffer.From(commandFragments[number]);
      } else {
        buffer := new CommandFragmentBuffer.From(start);
      }
      buffer.AddFragment(fragmentId, data);
      if |buffer.fragments| == buffer.fragmentCount {
        commandFragments := commandFragments - {number};
        payload := buffer.Reassemble();
      } else {
        commandFragments := commandFragments[number := buffer.State()];
        payload := None;
      }
    }

    static method ToPackets(channelId: byte, ready: seq<bytes>, ordering: OrderingGuarantee)
      returns (packets: seq<P.Packet>)
      ensures packets == P.PacketsOf(channelId, ready, ordering)
    {
      packets := [];
      for k := 0 to |ready|
        invariant packets == P.PacketsOf(channelId, ready[..k], ordering)
      {
        packets := packets + [P.Packet(channelId, ready[k], P.Reliable, ordering)];
      }
      assert ready[..|ready|] == ready;
    }

    method NoteReceived(number: u16, receivedMask: u32)
      requires Valid()
      modifies acknowledgeHandler, acknowledgeHandler.receivedPackets,
        acknowledgeHandler.receivedPackets.entrySequences, acknowledgeHandler.receivedPackets.entries
      ensures Valid() && Incoming() == old(Incoming()).Ack(number, receivedMask)
    {
      acknowledgeHandler.ProcessIncoming(number, number, FromU32(receivedMask));
    }

    /** Passes a payload through its channel and hands up what is ready. */
    method HandUpInOrder(channelId: byte, number: u16, data: bytes, ordering: OrderingGuarantee)
      returns (packets: seq<P.Packet>)
      requires Valid()
      modifies this`channelStates
      ensures Valid()
      ensures Incoming() == old(Incoming()).Order(channelId, number, data)
      ensures packets == old(Incoming()).InOrder(channelId, number, data, ordering)
    {
      var channel := new ChannelState.From(P.ChannelIn(channelStates, channelId));
      var ready := channel.ProcessOrdered(number, data);
      channelStates := channelStates[channelId := channel.State()];
      packets := ToPackets(channelId, ready, ordering);
    }

    /** Acknowledges a whole payload and hands it up, in the order of its channel or at once. */
    method HandUpWhole(channelId: byte, number: u16, payload: bytes, ordered: bool, ordering: OrderingGuarantee)
      returns (packets: seq<P.Packet>)
      requires Valid()
      modifies this`commandQueue, this`totalWaitingData, this`channelStates
      ensures Valid() && Outgoing() == old(Outgoing()).EnqueueAll([old(Incoming()).AckCommand(None)])
      ensures Incoming() == if ordered then old(Incoming()).Order(channelId, number, payload) else old(Incoming())
      ensures packets == if ordered then old(Incoming()).InOrder(channelId, number, payload, ordering)
                         else [P.Packet(channelId, payload, P.Reliable, Unordered)]
    {
      EnqueueAckCommand(None);
      if ordered {
        packets := HandUpInOrder(channelId, number, payload, ordering);
      } else {
        packets := [P.Packet(channelId, payload, P.Reliable, Unordered)];
      }
    }

    // ----- one method for each arm that does more than set a field -----

    method ProcessReliable(command: Command, around: P.Surroundings) returns (packets: seq<P.Packet>)
      requires Valid() && command.SendReliable? && lastHeard == around.time
      modifies this`commandQueue, this`totalWaitingData, this`channelStates, acknowledgeHandler,
        acknowledgeHandler.receivedPackets, acknowledgeHandler.receivedPackets.entrySequences,
        acknowledgeHandler.receivedPackets.entries
      ensures Valid()
      ensures P.Processed(command, around, old(Incoming()), old(Outgoing()), Incoming(), Outgoing(), packets)
    {
      ghost var i, q := Incoming(), Outgoing();
      NoteReceived(command.number, 0);
      packets := HandUpWhole(command.channelId, command.number, command.data, command.ordered, Ordered(None));
      P.ReliableProcessed(command, around, i, q, Incoming(), Outgoing(), packets);
    }

    method ProcessSequenced(command: Command, around: P.Surroundings) returns (packets: seq<P.Packet>)
      requires Valid() && command.SendUnreliableSequenced? && lastHeard == around.time
      modifies this`channelStates
      ensures Valid()
      ensures P.Processed(command, around, old(Incoming()), old(Outgoing()), Incoming(), Outgoing(), packets)
    {
      var channel := new ChannelState.From(P.ChannelIn(channelStates, command.channelId));
      var data := channel.ProcessSequenced(command.number, command.data);
      channelStates := channelStates[command.channelId := channel.State()];
      if data.Some? {
        return [P.Packet(command.channelId, data.value, P.Unreliable, Sequenced(None))];
      }
      return [];
    }

    method ProcessUnsequenced(command: Command, around: P.Surroundings) returns (packets: seq<P.Packet>)
      requires Valid() && command.SendUnsequenced? && lastHeard == around.time
      modifies unsequencedState, unsequencedState.unsequencedWindow
      ensures Valid()
      ensures P.Processed(command, around, old(Incoming()), old(Outgoing()), Incoming(), Outgoing(), packets)
    {
      var duplicate := unsequencedState.IsDuplicate(command.unsequencedGroup);
      if duplicate {
        return [];
      }
      unsequencedState.MarkReceived(command.unsequencedGroup);
      return [P.Packet(command.channelId, command.data, P.Unreliable, Acknowledgment.Unsequenced)];
    }

    method ProcessFragment(command: Command, around: P.Surroundings) returns (packets: seq<P.Packet>)
      requires Valid() && command.SendFragment? && lastHeard == around.time
      modifies this`commandQueue, this`totalWaitingData, this`channelStates, this`commandFragments,
        acknowledgeHandler, acknowledgeHandler.receivedPackets, acknowledgeHandler.receivedPackets.entrySequences,
        acknowledgeHandler.receivedPackets.entries
      ensures Valid()
      ensures P.Processed(command, around, old(Incoming()), old(Outgoing()), Incoming(), Outgoing(), packets)
    {
      ghost var i, q := Incoming(), Outgoing();
      NoteReceived(command.number, 0);
      var start := P.StartOf(command, around);
      var buffer, payload := TakeFragment(command.number, start, command.fragmentId, command.data);
      if payload.None? {
        P.PartProcessed(command, around, i, q);
        return [];
      }
      packets := HandUpWhole(buffer.channelId, command.number, payload.value, buffer.ordered, Unordered);
      P.WholeProcessed(command, around, i, q);
    }

    method ProcessUnreliableFragment(command: Command, around: P.Surroundings) returns (packets: seq<P.Packet>)
      requires Valid() && command.SendUnreliableFragment? && lastHeard == around.time
      modifies this`commandFragments
      ensures Valid()
      ensures P.Processed(command, around, old(Incoming()), old(Outgoing()), Incoming(), Outgoing(), packets)
    {
      P.UnreliablePieceProcessed(command, around, Incoming(), Outgoing());
      var start := Group(command.channelId, command.fragmentCount, false, map[], around.time);
      var buffer, payload := TakeFragment(command.number, start, command.fragmentId, command.data);
      if payload.Some? {
        return [P.Packet(buffer.channelId, payload.value, P.Unreliable, Unordered)];
      }
      return [];
    }

    method ProcessConnect(command: Command, around: P.Surroundings) returns (packets: seq<P.Packet>)
      requires Valid() && command.Connect? && lastHeard == around.time
      modifies this`commandQueue, this`totalWaitingData, this`state, this`peerId, this`incomingSessionId,
        this`connectId
      ensures Valid()
      ensures P.Processed(command, around, old(Incoming()), old(Outgoing()), Incoming(), Outgoing(), packets)
    {
      P.ConnectProcessed(command, around, Incoming(), Outgoing());
      if state == P.Idle {
        Accept(command, around.randomPeerId);
        var reply := VerifyConnect(
          peerId, Min(command.channels, config.channelCount), 1400, incomingSessionId, outgoingSessionId, windowSize);
        EnqueuePastLimit(reply);
      }
      return [];
    }

    /** Takes the ids of a Connect and draws the peer's own. */
    method Accept(command: Command, randomPeerId: u16)
      requires Valid() && command.Connect?
      modifies this`state, this`peerId, this`incomingSessionId, this`connectId
      ensures Valid()
      ensures Incoming() == old(Incoming()).(state := P.AcknowledgingConnect, peerId := randomPeerId,
        incomingSessionId := command.outgoingSessionId, connectId := command.connectId)
    {
      incomingSessionId := command.outgoingSessionId;
      peerId := randomPeerId;
      connectId := command.connectId;
      state := P.AcknowledgingConnect;
    }

    method ProcessVerifyConnect(command: Command, around: P.Surroundings) returns (r: Result<seq<P.Packet>>)
      requires Valid() && command.VerifyConnect? && lastHeard == around.time
      modifies this`state, this`peerId, this`incomingSessionId, this`windowSize
      ensures Valid() && r == if old(Incoming()).Rejects(command) then Err else Ok([])
      ensures P.Processed(command, around, old(Incoming()), old(Outgoing()), Incoming(), Outgoing(), [])
    {
      P.VerifyProcessed(command, around, Incoming(), Outgoing());
      if state == P.Connecting {
        peerId := command.peerId;
        incomingSessionId := command.incomingSessionId;
        if config.useWindowFlowControl {
          var negotiated := Min(config.maxWindowSize, Min(command.windowSize, windowSize));
          windowSize := Max(config.minWindowSize, negotiated);
        }
        if command.outgoingSessionId != outgoingSessionId {
          return Err;
        }
        state := P.ConnectionSucceeded;
      }
      return Ok([]);
    }

    /** The arms that only set a field or send a short reply. */
    method ProcessControl(command: Command, around: P.Surroundings)
      requires Valid() && lastHeard == around.time
      requires command.Ping? || command.Pong? || command.Disconnect? || command.ThrottleConfigure? || command.PMTUProbe?
      modifies this`commandQueue, this`totalWaitingData, this`state, this`tuning
      ensures Valid()
      ensures P.Processed(command, around, old(Incoming()), old(Outgoing()), Incoming(), Outgoing(), [])
    {
      match command {
        case Ping(timestamp) =>
          P.PingProcessed(command, around, Incoming(), Outgoing());
          EnqueueOnly(Pong(timestamp));
        case PMTUProbe(size, token, _) =>
          P.ProbeProcessed(command, around, Incoming(), Outgoing());
          EnqueueOnly(PMTUReply(size, token));
        case Disconnect(_) =>
          P.DisconnectProcessed(command, around, Incoming(), Outgoing());
          state := P.Zombie;
        case ThrottleConfigure(interval, acceleration, deceleration) =>
          P.ThrottleProcessed(command, around, Incoming(), Outgoing());
          tuning := P.Tuning(interval * MILLISECOND, acceleration, deceleration);
        case _ =>
          P.QuietProcessed(command, around, Incoming(), Outgoing());
      }
    }

    method ProcessData(command: Command, around: P.Surroundings) returns (packets: seq<P.Packet>)
      requires Valid() && command.CommandType() <= 6 && lastHeard == around.time
      modifies this`commandQueue, this`totalWaitingData, this`channelStates, this`commandFragments,
        acknowledgeHandler, acknowledgeHandler.receivedPackets, acknowledgeHandler.receivedPackets.entrySequences,
        acknowledgeHandler.receivedPackets.entries, unsequencedState, unsequencedState.unsequencedWindow
      ensures Valid()
      ensures P.Processed(command, around, old(Incoming()), old(Outgoing()), Incoming(), Outgoing(), packets)
    {
      match command {
        case SendReliable(_, _, _, _) => packets := ProcessReliable(command, around);
        case SendUnreliable(channelId, data) => packets := [P.Packet(channelId, data, P.Unreliable, Unordered)];
        case SendUnreliableSequenced(_, _, _) => packets := ProcessSequenced(command, around);
        case SendUnsequenced(_, _, _) => packets := ProcessUnsequenced(command, around);
        case SendFragment(_, _, _, _, _, _) => packets := ProcessFragment(command, around);
        case SendUnreliableFragment(_, _, _, _, _) => packets := ProcessUnreliableFragment(command, around);
      }
    }

    method ProcessSession(command: Command, around: P.Surroundings) returns (r: Result<seq<P.Packet>>)
      requires Valid() && 6 < command.CommandType() && !command.PMTUReply? && !command.BandwidthLimit?
      requires lastHeard == around.time
      modifies this`commandQueue, this`totalWaitingData, this`state, this`peerId, this`incomingSessionId,
        this`connectId, this`windowSize, this`tuning, acknowledgeHandler, acknowledgeHandler.receivedPackets,
        acknowledgeHandler.receivedPackets.entrySequences, acknowledgeHandler.receivedPackets.entries
      ensures Valid() && r == if old(Incoming()).Rejects(command) then Err else Ok([])
      ensures P.Processed(command, around, old(Incoming()), old(Outgoing()), Incoming(), Outgoing(), [])
    {
      match command {
        case Acknowledge(number, receivedMask, _) =>
          P.AcknowledgeProcessed(command, around, Incoming(), Outgoing());
          NoteReceived(number, receivedMask);
        case Connect(_, _, _, _, _) => var _ := ProcessConnect(command, around);
        case VerifyConnect(_, _, _, _, _, _) => var _ :- ProcessVerifyConnect(command, around);
        case Ping(_) => ProcessControl(command, around);
        case Pong(_) => ProcessControl(command, around);
        case Disconnect(_) => ProcessControl(command, around);
        case ThrottleConfigure(_, _, _) => ProcessControl(command, around);
        case PMTUProbe(_, _, _) => ProcessControl(command, around);
      }
      return Ok([]);
    }

    /** The arms that reach into the PMTU search and the bandwidth limits. */
    method ProcessTuning(command: Command, around: P.Surroundings)
      requires Valid() && lastHeard == around.time && (command.PMTUReply? || command.BandwidthLimit?)
      modifies pmtu, bandwidthThrottle
      ensures Valid()
      ensures P.Processed(command, around, old(Incoming()), old(Outgoing()), Incoming(), Outgoing(), [])
      ensures pmtu.State() == if command.PMTUReply?
        then old(pmtu.State()).Reply(command.size, command.token, around.time)
        else old(pmtu.State())
      ensures bandwidthThrottle.State() == if command.BandwidthLimit?
        then old(bandwidthThrottle.State()).(outgoingLimit := command.outgoing, incomingLimit := command.incoming)
        else old(bandwidthThrottle.State())
    {
      P.QuietProcessed(command, around, Incoming(), Outgoing());
      if command.PMTUReply? {
        var _ := pmtu.ProcessReply(command.size, command.token, around.time);
      } else {
        bandwidthThrottle.incomingBandwidthLimit := command.incoming;
        bandwidthThrottle.outgoingBandwidthLimit := command.outgoing;
      }
    }

    /** The arms that hand nothing up. */
    method ProcessRest(command: Command, around: P.Surroundings) returns (r: Result<seq<P.Packet>>)
      requires Valid() && lastHeard == around.time && 6 < command.CommandType()
      modifies this`commandQueue, this`totalWaitingData, this`state, this`peerId, this`incomingSessionId,
        this`connectId, this`windowSize, this`tuning, acknowledgeHandler, acknowledgeHandler.receivedPackets,
        acknowledgeHandler.receivedPackets.entrySequences, acknowledgeHandler.receivedPackets.entries, pmtu,
        bandwidthThrottle
      ensures Valid() && P.Handled(command, around, old(Incoming()), old(Outbox()), Incoming(), Outbox(), r)
    {
      if command.PMTUReply? || command.BandwidthLimit? {
        ProcessTuning(command, around);
        return Ok([]);
      }
      r := ProcessSession(command, around);
    }

    method ProcessHeard(command: Command, around: P.Surroundings) returns (r: Result<seq<P.Packet>>)
      requires Valid() && lastHeard == around.time
      modifies this`commandQueue, this`totalWaitingData, this`state, this`peerId, this`incomingSessionId,
        this`connectId, this`windowSize, this`tuning, this`commandFragments, this`channelStates, acknowledgeHandler,
        acknowledgeHandler.receivedPackets, acknowledgeHandler.receivedPackets.entrySequences,
        acknowledgeHandler.receivedPackets.entries, unsequencedState, unsequencedState.unsequencedWindow, pmtu,
        bandwidthThrottle
      ensures Valid() && P.Handled(command, around, old(Incoming()), old(Outbox()), Incoming(), Outbox(), r)
    {
      if command.CommandType() <= 6 {
        var packets := ProcessData(command, around);
        return Ok(packets);
      }
      r := ProcessRest(command, around);
    }

    /** One command: the whole peer afterwards, and the packets handed up. */
    method ProcessCommand(command: Command, around: P.Surroundings) returns (r: Result<seq<P.Packet>>)
      requires Valid()
      modifies this`commandQueue, this`totalWaitingData, this`state, this`peerId, this`incomingSessionId,
        this`connectId, this`windowSize, this`tuning, this`lastHeard, this`commandFragments, this`channelStates,
        acknowledgeHandler, acknowledgeHandler.receivedPackets, acknowledgeHandler.receivedPackets.entrySequences,
        acknowledgeHandler.receivedPackets.entries, unsequencedState, unsequencedState.unsequencedWindow, pmtu,
        bandwidthThrottle
      ensures Valid() && P.Done(command, around, old(Incoming()), old(Outbox()), Incoming(), Outbox(), r)
    {
      ghost var i, o := Incoming(), Outbox();
      lastHeard := around.time;
      r := ProcessHeard(command, around);
      P.Finished(command, around, i, o, Incoming(), Outbox(), r);
    }

    /** Takes the frame off a datagram and reads the commands in it. */
    method ReadDatagram(data: bytes) returns (r: Result<seq<Command>>)
      ensures r == ReadBack(libs, config, data)
    {
      var payload := data;
      if config.useChecksums {
        payload :- ValidateAndStrip(libs, data);
      }
      var decompressed :- Decompress(libs, payload);
      r := ReadPacket(decompressed);
    }

    /** A received datagram: its commands in turn, up to the first that is rejected. */
    method ProcessCommandPacket(data: bytes, around: P.Surroundings) returns (r: Result<seq<P.Packet>>)
      requires Valid()
      modifies this`commandQueue, this`totalWaitingData, this`state, this`peerId, this`incomingSessionId,
        this`connectId, this`windowSize, this`tuning, this`lastHeard, this`commandFragments, this`channelStates,
        acknowledgeHandler, acknowledgeHandler.receivedPackets, acknowledgeHandler.receivedPackets.entrySequences,
        acknowledgeHandler.receivedPackets.entries, unsequencedState, unsequencedState.unsequencedWindow, pmtu,
        bandwidthThrottle
      ensures Valid()
      ensures (Incoming(), r) == P.ProcessPacket(libs, config, old(Incoming()), P.Arrival(data, around))
      ensures Outbox()
        == P.OutboxAfterAll(old(Incoming()), old(Outbox()), P.StepsIn(libs, config, P.Arrival(data, around)))
    {
      var commands :- ReadDatagram(data);
      ghost var steps := P.StepsOf(commands, around);
      ghost var end := P.Ending(
        P.ProcessAll(Incoming(), steps).0, P.OutboxAfterAll(Incoming(), Outbox(), steps),
        P.ProcessAll(Incoming(), steps).1);
      P.LeadsToStart(Incoming(), Outbox(), steps);
      var allPackets := [];
      for k := 0 to |commands|
        invariant Valid()
        invariant P.LeadsTo(Incoming(), Outbox(), steps[k..], allPackets, end)
      {
        ghost var i, o := Incoming(), Outbox();
        var result := ProcessCommand(commands[k], around);
        P.LeadsToDone(i, o, steps[k..], allPackets, end, Incoming(), Outbox(), result);
        assert steps[k..][1..] == steps[k + 1..];
        var packets :- result;
        allPackets := allPackets + packets;
      }
      P.LeadsToEnd(Incoming(), Outbox(), allPackets, end);
      return Ok(allPackets);
    }

    /** `process_packet` */
    method ReceivePacket(payload: bytes, around: P.Surroundings) returns (actions: seq<Action>)
      requires Valid()
      modifies this`commandQueue, this`totalWaitingData, this`state, this`peerId, this`incomingSessionId,
        this`connectId, this`windowSize, this`tuning, this`lastHeard, this`commandFragments, this`channelStates,
        acknowledgeHandler, acknowledgeHandler.receivedPackets, acknowledgeHandler.receivedPackets.entrySequences,
        acknowledgeHandler.receivedPackets.entries, unsequencedState, unsequencedState.unsequencedWindow, pmtu,
        bandwidthThrottle
      ensures Valid() && (State(), actions) == old(State()).Receive(libs, payload, around)
    {
      if payload == [] {
        return [];
      }
      var _ := bandwidthThrottle.UpdateBandwidthWindow(around.time);
      var canReceive := bandwidthThrottle.CanReceiveWithinBandwidth();
      if !canReceive {
        return [];
      }
      bandwidthThrottle.RecordBytesReceived(Low32(|payload|));
      var packets := ProcessCommandPacket(payload, around);
      if packets.Err? {
        return [];
      }
      var connected := RecordRecv();
      actions := (if connected then [EmitConnect] else []) + Emits(packets.value);
    }
  }

  /** A command without payload passes the limit check. */
  lemma PassesLimit(q: Queue, c: Command)
    requires q.Valid() && c.DataSize() == 0
    ensures q.EnqueueAll([c]) == q.(commands := q.commands + [c]) && q.EnqueueAll([c]).Valid()
  {
    EnqueueAllKeepsValid(q, [c]);
    assert [c][1..] == [];
  }

  /** The packet goes into the queue behind the greeting. */
  lemma SendInParts(r: Remote, greeted: Remote, p: P.Packet)
    requires greeted == r.(inbox := r.inbox.RecordSend()).Queues(r.inbox.Greeting())
    ensures greeted.Queues(greeted.CommandsFor(p)).Numbered(p) == r.Prepared(p)
  {
    EnqueueAllInParts(r.outbox.queue, r.inbox.Greeting(), r.CommandsFor(p));
  }

  /** The chunking of an unsequenced payload: where it starts from. */
  datatype Chunking = Chunking(channelId: byte, group: u16, data: bytes, maxPayload: nat, queue: Queue) {
    predicate Valid() { data != [] && 0 < maxPayload }

    function Commands(): seq<Command>
      requires Valid()
    {
      Numbered(channelId, group, Chunks(data, maxPayload))
    }

    /** Where the chunk at `offset` ends. */
    function End(offset: nat): nat
      requires offset < |data|
    {
      offset + Min(maxPayload, |data| - offset)
    }

    /** After `n` chunks the loop has come to `offset`. */
    predicate HasCome(n: nat, offset: nat, now: Queue, next: u16) {
      && Valid() && CutUpTo(data, maxPayload, n, offset) && offset <= |data|
      && Queued(queue, Commands(), n, now) && next == WrappingAdd(group, Wrap(n))
    }
  }

  lemma ChunkingStarts(c: Chunking)
    requires c.Valid()
    ensures c.HasCome(0, 0, c.queue, c.group)
  {
    QueuedNone(c.queue, c.Commands());
    CutNone(c.data, c.maxPayload);
  }

  lemma ChunkingGoesOn(c: Chunking, n: nat, offset: nat, now: Queue, next: u16)
    requires c.HasCome(n, offset, now, next) && offset < |c.data|
    ensures
      var end := c.End(offset);
      c.HasCome(n + 1, end, now.Enqueue(SendUnsequenced(c.channelId, next, c.data[offset..end])), WrappingAdd(next, 1))
  {
    CutNext(c.data, c.maxPayload, n, offset);
    QueuedNext(c.queue, c.Commands(), n, now);
    NextGroup(c.group, n);
  }

  lemma ChunkingEnds(c: Chunking, n: nat, offset: nat, now: Queue, next: u16)
    requires c.HasCome(n, offset, now, next) && |c.data| <= offset
    ensures now == c.queue.EnqueueAll(c.Commands())
    ensures next == WrappingAdd(c.group, Wrap(|Chunks(c.data, c.maxPayload)|))
  {
    CutAll(c.data, c.maxPayload, n);
    QueuedAll(c.queue, c.Commands(), now);
  }
}

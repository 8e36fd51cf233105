/** What the commands of a received packet do, one after another. */
module Processor {
  import opened Numbers
  import opened Bits
  import opened Clock
  import opened Command
  import opened Framing
  import opened Config
  import opened Packer
  import opened Queue
  import opened Runs
  import opened Bandwidth
  import opened Pmtu
  import opened Fragments
  import Channel
  import Acknowledgment
  import Unsequenced

  datatype PeerState =
    Idle | Connecting | AcknowledgingConnect | ConnectionSucceeded | Connected | Disconnecting | Zombie

  datatype DeliveryGuarantee = Unreliable | Reliable

  /** A packet handed up to the user. */
  datatype Packet = Packet(
    channelId: byte, data: bytes, delivery: DeliveryGuarantee, ordering: Acknowledgment.OrderingGuarantee)

  /** What a step takes from outside: the time and the peer id drawn at random. */
  datatype Surroundings = Surroundings(time: Instant, randomPeerId: u16)

  /** The settings of congestion control that a peer may change. */
  datatype Tuning = Tuning(interval: Duration, acceleration: u32, deceleration: u32)

  function InitialTuning(config: Config): Tuning {
    if config.useAdvancedThrottling then
      Tuning(config.throttleIntervalMs * MILLISECOND, config.throttleAcceleration, config.throttleDeceleration)
    else Tuning(SECOND, 2, 2)
  }

  function ChannelIn(channels: map<byte, Channel.Channel>, channelId: byte): Channel.Channel {
    if channelId in channels then channels[channelId] else Channel.NewChannel()
  }

  function GroupOf(fragments: map<u16, Group>, number: u16, start: Group): Group {
    if number in fragments then fragments[number] else start
  }

  /** A complete group is taken out, whether or not its payload can be put together. */
  function Settle(fragments: map<u16, Group>, number: u16, g: Group): map<u16, Group> {
    if g.IsComplete() then fragments - {number} else fragments[number := g]
  }

  /** What incoming commands read and change of a peer, its queue, bandwidth limits and PMTU search aside. */
  datatype Inbox = Inbox(
    config: Config,
    state: PeerState,
    peerId: u16,
    incomingSessionId: u16,
    outgoingSessionId: u16,
    connectId: u32,
    lastHeard: Instant,
    windowSize: u32,
    tuning: Tuning,
    acks: Acknowledgment.Handler,
    window: Unsequenced.Window,
    fragments: map<u16, Group>,
    channels: map<byte, Channel.Channel>)
  {
    predicate Valid() { acks.Valid() && window.Valid() }

    predicate IsEstablished() { state == Connected || state == ConnectionSucceeded }

    /** A packet is sent: the first one starts the handshake, the one after its success ends it. */
    function RecordSend(): Inbox {
      match state
      case Idle => this.(state := Connecting)
      case ConnectionSucceeded => this.(state := Connected)
      case _ => this
    }

    /** What the first packet sent puts in front of itself. */
    function Greeting(): seq<Command> {
      if state == Idle && config.useConnectionHandshake
      then [Connect(config.channelCount, 1400, 1, outgoingSessionId, connectId)] else []
    }

    /** A packet was received; without the formal handshake that is enough to be connected. */
    function RecordRecv(): Inbox {
      match state
      case Idle => if config.useConnectionHandshake then this else this.(state := Connected)
      case Connecting => if config.useConnectionHandshake then this else this.(state := Connected)
      case AcknowledgingConnect => this.(state := Connected)
      case _ => this
    }

    /** The window after the other side has named its own: the smaller, within the configured range. */
    function NegotiatedWindow(theirs: u32): u32 {
      if config.useWindowFlowControl
      then Max(config.minWindowSize, Min(config.maxWindowSize, Min(theirs, windowSize))) else windowSize
    }

    function ChannelOf(channelId: byte): Channel.Channel { ChannelIn(channels, channelId) }

    /** The fragments received for `number` once this one is in. */
    function Joined(number: u16, start: Group, fragmentId: byte, data: bytes): Group {
      GroupOf(fragments, number, start).Add(fragmentId, data)
    }

    function AddFragment(number: u16, start: Group, fragmentId: byte, data: bytes): Inbox {
      this.(fragments := Settle(fragments, number, Joined(number, start, fragmentId, data)))
    }

    function Ack(number: u16, mask: u32): Inbox
      requires Valid()
    {
      this.(acks := acks.Incoming(number, number, FromU32(mask)))
    }

    function Order(channelId: byte, number: u16, data: bytes): Inbox {
      this.(channels := channels[channelId := ChannelOf(channelId).Buffer(number, data).AfterReady()])
    }

    /** An ordered payload that its last fragment completes goes through the channel. */
    function TakeFragment(number: u16, start: Group, fragmentId: byte, data: bytes): Inbox {
      var g, added := Joined(number, start, fragmentId, data), AddFragment(number, start, fragmentId, data);
      if g.Reassemble().Some? && g.ordered then added.Order(g.channelId, number, g.Reassemble().value) else added
    }

    function InOrder(channelId: byte, number: u16, data: bytes, ordering: Acknowledgment.OrderingGuarantee)
      : seq<Packet>
    {
      PacketsOf(channelId, ChannelOf(channelId).Buffer(number, data).Ready(), ordering)
    }

    /** The session id in a VerifyConnect that a connecting peer waits for is its own. */
    predicate Rejects(c: Command) {
      state == Connecting && c.VerifyConnect? && c.outgoingSessionId != outgoingSessionId
    }

    function Hear(time: Instant): Inbox { this.(lastHeard := time) }

    /** The peer after one command. */
    function After(c: Command, s: Surroundings): (r: Inbox)
      requires Valid()
      ensures r.Valid()
    {
      var heard := Hear(s.time);
      match c
      case Acknowledge(number, mask, _) => heard.Ack(number, mask)
      case SendReliable(channelId, number, ordered, data) =>
        var acked := heard.Ack(number, 0);
        if ordered then acked.Order(channelId, number, data) else acked
      case SendUnreliableSequenced(channelId, number, _) =>
        heard.(channels := channels[channelId := ChannelOf(channelId).Sequence(number)])
      case SendUnsequenced(_, group, _) =>
        if window.IsDuplicate(group) then heard else heard.(window := window.MarkReceived(group))
      case SendFragment(channelId, number, ordered, fragmentId, count, data) =>
        heard.Ack(number, 0).TakeFragment(number, Group(channelId, count, ordered, map[], s.time), fragmentId, data)
      case SendUnreliableFragment(channelId, number, fragmentId, count, data) =>
        heard.AddFragment(number, Group(channelId, count, false, map[], s.time), fragmentId, data)
      case Disconnect(_) => heard.(state := Zombie)
      case Connect(_, _, _, theirs, id) =>
        if state == Idle then
          heard.(state := AcknowledgingConnect, peerId := s.randomPeerId, incomingSessionId := theirs, connectId := id)
        else heard
      case VerifyConnect(id, _, _, incoming, _, theirs) =>
        if state == Connecting then
          heard.(peerId := id, incomingSessionId := incoming, windowSize := NegotiatedWindow(theirs),
                 state := if Rejects(c) then Connecting else ConnectionSucceeded)
        else heard
      case ThrottleConfigure(interval, acceleration, deceleration) =>
        heard.(tuning := Tuning(interval * MILLISECOND, acceleration, deceleration))
      case _ => heard
    }

    /** The packets that one command hands up. */
    function HandsUp(c: Command, s: Surroundings): seq<Packet>
      requires Valid()
    {
      match c
      case SendReliable(channelId, number, ordered, data) =>
        if ordered then InOrder(channelId, number, data, Acknowledgment.Ordered(None))
        else [Packet(channelId, data, Reliable, Acknowledgment.Unordered)]
      case SendUnreliable(channelId, data) =>
        [Packet(channelId, data, Unreliable, Acknowledgment.Unordered)]
      case SendUnreliableSequenced(channelId, number, data) =>
        if ChannelOf(channelId).Newer(number)
        then [Packet(channelId, data, Unreliable, Acknowledgment.Sequenced(None))] else []
      case SendUnsequenced(channelId, group, data) =>
        if window.IsDuplicate(group) then [] else [Packet(channelId, data, Unreliable, Acknowledgment.Unsequenced)]
      case SendFragment(channelId, number, ordered, fragmentId, count, data) =>
        var g := Joined(number, Group(channelId, count, ordered, map[], s.time), fragmentId, data);
        if g.Reassemble().None? then []
        else if g.ordered then InOrder(g.channelId, number, g.Reassemble().value, Acknowledgment.Unordered)
        else [Packet(g.channelId, g.Reassemble().value, Reliable, Acknowledgment.Unordered)]
      case SendUnreliableFragment(channelId, number, fragmentId, count, data) =>
        var g := Joined(number, Group(channelId, count, false, map[], s.time), fragmentId, data);
        if g.Reassemble().None? then []
        else [Packet(g.channelId, g.Reassemble().value, Unreliable, Acknowledgment.Unordered)]
      case _ => []
    }

    /** The acknowledgment of everything received so far. */
    function AckCommand(sentTime: Option<u32>): Command
      requires Valid()
    {
      Acknowledge(acks.RemoteSequenceNum(), ToU32(acks.AckBitfield()), sentTime)
    }

    /** The answer to the first Connect. */
    function Verification(channels: byte, theirs: u16, s: Surroundings): Command {
      VerifyConnect(
        s.randomPeerId, Min(channels, config.channelCount), 1400, theirs, outgoingSessionId, windowSize)
    }

    /** The commands that one command makes the peer enqueue. */
    function Replies(c: Command, s: Surroundings): seq<Command>
      requires Valid()
    {
      match c
      case Ping(timestamp) => [Pong(timestamp)]
      case SendReliable(_, number, _, _) => [Ack(number, 0).AckCommand(None)]
      case SendFragment(channelId, number, ordered, fragmentId, count, data) =>
        if Joined(number, Group(channelId, count, ordered, map[], s.time), fragmentId, data).Reassemble().Some?
        then [Ack(number, 0).AckCommand(None)] else []
      case Connect(channels, _, _, theirs, _) =>
        if state == Idle
        then [Verification(channels, theirs, s)] else []
      case PMTUProbe(size, token, _) => [PMTUReply(size, token)]
      case _ => []
    }
  }

  /** What processing `c` makes of an inbox and a queue, and the packets it hands up. */
  ghost predicate Processed(
    c: Command, s: Surroundings, i: Inbox, q: Queue, after: Inbox, queue: Queue, packets: seq<Packet>)
  {
    && i.Valid()
    && after == i.After(c, s) && packets == i.HandsUp(c, s) && queue == q.EnqueueAll(i.Replies(c, s))
  }

  lemma HearingLeavesAfter(c: Command, s: Surroundings, i: Inbox)
    requires i.Valid()
    ensures i.Hear(s.time).After(c, s) == i.After(c, s)
  {
  }

  lemma HearingLeavesReplies(c: Command, s: Surroundings, i: Inbox)
    requires i.Valid()
    ensures i.Hear(s.time).HandsUp(c, s) == i.HandsUp(c, s) && i.Hear(s.time).Replies(c, s) == i.Replies(c, s)
  {
  }

  /** Noting the time first changes nothing of what follows. */
  lemma HearingFirst(
    c: Command, s: Surroundings, i: Inbox, q: Queue, after: Inbox, queue: Queue, packets: seq<Packet>)
    requires i.Valid() && Processed(c, s, i.Hear(s.time), q, after, queue, packets)
    ensures after == i.After(c, s) && packets == i.HandsUp(c, s) && queue == q.EnqueueAll(i.Replies(c, s))
  {
    HearingLeavesAfter(c, s, i);
    HearingLeavesReplies(c, s, i);
  }

  // The arms, given what they did to the peer and its queue.

  lemma ReliableProcessed(
    c: Command, s: Surroundings, i: Inbox, q: Queue, after: Inbox, queue: Queue, packets: seq<Packet>)
    requires i.Valid() && c.SendReliable? && i.lastHeard == s.time
    requires
      var acked := i.Ack(c.number, 0);
      && queue == q.EnqueueAll([acked.AckCommand(None)])
      && (if c.ordered then
            && after == acked.Order(c.channelId, c.number, c.data)
            && packets == acked.InOrder(c.channelId, c.number, c.data, Acknowledgment.Ordered(None))
          else
            after == acked && packets == [Packet(c.channelId, c.data, Reliable, Acknowledgment.Unordered)])
    ensures Processed(c, s, i, q, after, queue, packets)
  {
  }

  function StartOf(c: Command, s: Surroundings): Group
    requires c.SendFragment?
  {
    Group(c.channelId, c.fragmentCount, c.ordered, map[], s.time)
  }

  lemma PartProcessed(c: Command, s: Surroundings, i: Inbox, q: Queue)
    requires i.Valid() && c.SendFragment? && i.lastHeard == s.time
    requires i.Joined(c.number, StartOf(c, s), c.fragmentId, c.data).Reassemble().None?
    ensures Processed(c, s, i, q, i.Ack(c.number, 0).AddFragment(c.number, StartOf(c, s), c.fragmentId, c.data), q, [])
  {
  }

  lemma WholeProcessed(c: Command, s: Surroundings, i: Inbox, q: Queue)
    requires i.Valid() && c.SendFragment? && i.lastHeard == s.time
    requires i.Joined(c.number, StartOf(c, s), c.fragmentId, c.data).Reassemble().Some?
    ensures
      var g := i.Joined(c.number, StartOf(c, s), c.fragmentId, c.data);
      var added := i.Ack(c.number, 0).AddFragment(c.number, StartOf(c, s), c.fragmentId, c.data);
      Processed(c, s, i, q, if g.ordered then added.Order(g.channelId, c.number, g.Reassemble().value) else added,
                q.EnqueueAll([i.Ack(c.number, 0).AckCommand(None)]),
                if g.ordered then added.InOrder(g.channelId, c.number, g.Reassemble().value, Acknowledgment.Unordered)
                else [Packet(g.channelId, g.Reassemble().value, Reliable, Acknowledgment.Unordered)])
  {
  }

  lemma UnreliablePieceProcessed(c: Command, s: Surroundings, i: Inbox, q: Queue)
    requires i.Valid() && c.SendUnreliableFragment? && i.lastHeard == s.time
    ensures
      var start := Group(c.channelId, c.fragmentCount, false, map[], s.time);
      var g := i.Joined(c.number, start, c.fragmentId, c.data);
      Processed(c, s, i, q, i.AddFragment(c.number, start, c.fragmentId, c.data), q,
                if g.Reassemble().None? then []
                else [Packet(g.channelId, g.Reassemble().value, Unreliable, Acknowledgment.Unordered)])
  {
  }

  lemma ConnectProcessed(c: Command, s: Surroundings, i: Inbox, q: Queue)
    requires i.Valid() && c.Connect? && i.lastHeard == s.time
    ensures i.state != Idle ==> Processed(c, s, i, q, i, q, [])
    ensures
      var answered := i.(state := AcknowledgingConnect, peerId := s.randomPeerId,
                         incomingSessionId := c.outgoingSessionId, connectId := c.connectId);
      var reply := i.Verification(c.channels, c.outgoingSessionId, s);
      i.state == Idle ==> Processed(c, s, i, q, answered, q.EnqueueAll([reply]), [])
  {
  }

  lemma VerifyProcessed(c: Command, s: Surroundings, i: Inbox, q: Queue)
    requires i.Valid() && c.VerifyConnect? && i.lastHeard == s.time
    ensures i.state != Connecting ==> Processed(c, s, i, q, i, q, [])
    ensures
      var known := i.(peerId := c.peerId, incomingSessionId := c.incomingSessionId,
                      windowSize := i.NegotiatedWindow(c.windowSize));
      i.state == Connecting ==>
        Processed(c, s, i, q, if i.Rejects(c) then known else known.(state := ConnectionSucceeded), q, [])
  {
  }

  lemma PingProcessed(c: Command, s: Surroundings, i: Inbox, q: Queue)
    requires i.Valid() && c.Ping? && i.lastHeard == s.time
    ensures Processed(c, s, i, q, i, q.EnqueueAll([Pong(c.timestamp)]), [])
  {
  }

  lemma ProbeProcessed(c: Command, s: Surroundings, i: Inbox, q: Queue)
    requires i.Valid() && c.PMTUProbe? && i.lastHeard == s.time
    ensures Processed(c, s, i, q, i, q.EnqueueAll([PMTUReply(c.size, c.token)]), [])
  {
  }

  lemma DisconnectProcessed(c: Command, s: Surroundings, i: Inbox, q: Queue)
    requires i.Valid() && c.Disconnect? && i.lastHeard == s.time
    ensures Processed(c, s, i, q, i.(state := Zombie), q, [])
  {
  }

  lemma ThrottleProcessed(c: Command, s: Surroundings, i: Inbox, q: Queue)
    requires i.Valid() && c.ThrottleConfigure? && i.lastHeard == s.time
    ensures
      Processed(c, s, i, q, i.(tuning := Tuning(c.interval * MILLISECOND, c.acceleration, c.deceleration)), q, [])
  {
  }

  lemma QuietProcessed(c: Command, s: Surroundings, i: Inbox, q: Queue)
    requires i.Valid() && (c.Pong? || c.BandwidthLimit? || c.PMTUReply?) && i.lastHeard == s.time
    ensures Processed(c, s, i, q, i, q, [])
  {
  }

  lemma AcknowledgeProcessed(c: Command, s: Surroundings, i: Inbox, q: Queue)
    requires i.Valid() && c.Acknowledge? && i.lastHeard == s.time
    ensures Processed(c, s, i, q, i.Ack(c.number, c.receivedMask), q, [])
  {
  }

  function PacketsOf(channelId: byte, payloads: seq<bytes>, ordering: Acknowledgment.OrderingGuarantee): seq<Packet> {
    seq(|payloads|, i requires 0 <= i < |payloads| => Packet(channelId, payloads[i], Reliable, ordering))
  }

  /** A peer that has heard nothing yet. */
  function NewInbox(config: Config, outgoingSessionId: u16, connectId: u32, time: Instant): Inbox {
    Inbox(config, Idle, 0, 0, outgoingSessionId, connectId, time, config.initialWindowSize, InitialTuning(config),
          Acknowledgment.Initial(), Unsequenced.Fresh(), map[], map[])
  }

  type ValidInbox = i: Inbox | i.Valid() witness NewInbox(SomeConfig(), 0, 0, 0)

  function SomeConfig(): Config {
    Config(0, 0, 1, false, None, 0, 0, false, 0, 0, 0, false, 0, 0, 0, 0, 0, 0, false, NoCompression, 0, 0,
           false, 0, 0, 0, 0)
  }

  /** A command and what its processing takes from outside. */
  datatype Step = Step(command: Command, around: Surroundings)

  function Next(i: ValidInbox, step: Step): ValidInbox { i.After(step.command, step.around) }

  function Out(i: ValidInbox, step: Step): seq<Packet> { i.HandsUp(step.command, step.around) }

  function After(i: ValidInbox, steps: seq<Step>): ValidInbox { StateAfter<ValidInbox, Step>(Next, i, steps) }

  function HandedUp(i: ValidInbox, steps: seq<Step>): seq<Packet> {
    OutputsOf<ValidInbox, Step, Packet>(Next, Out, i, steps)
  }

  function StepsOf(cs: seq<Command>, s: Surroundings): seq<Step> {
    seq(|cs|, i requires 0 <= i < |cs| => Step(cs[i], s))
  }

  /** A packet's steps stop at the first one that is rejected; what the earlier ones handed up is lost then. */
  function ProcessAll(i: ValidInbox, steps: seq<Step>): (ValidInbox, Result<seq<Packet>>)
    decreases |steps|
  {
    if steps == [] then (i, Ok([]))
    else if i.Rejects(steps[0].command) then (Next(i, steps[0]), Err)
    else
      match ProcessAll(Next(i, steps[0]), steps[1..])
      case (j, Err) => (j, Err)
      case (j, Ok(more)) => (j, Ok(Out(i, steps[0]) + more))
  }

  /** What incoming commands change beside the inbox: the command queue, the bandwidth limits, the PMTU search. */
  datatype Outbox = Outbox(queue: Queue, throttle: Throttle, search: Search) {
    function After(i: Inbox, c: Command, s: Surroundings): Outbox
      requires i.Valid()
    {
      Outbox(queue.EnqueueAll(i.Replies(c, s)),
             if c.BandwidthLimit? then throttle.(outgoingLimit := c.outgoing, incomingLimit := c.incoming)
             else throttle,
             if c.PMTUReply? then search.Reply(c.size, c.token, s.time) else search)
    }
  }

  /** What processing `c` makes of a whole peer, and its result. */
  ghost predicate Done(
    c: Command, s: Surroundings, i: Inbox, o: Outbox, after: Inbox, outbox: Outbox, r: Result<seq<Packet>>)
  {
    && i.Valid() && after == i.After(c, s) && outbox == o.After(i, c, s)
    && r == if i.Rejects(c) then Err else Ok(i.HandsUp(c, s))
  }

  /** The same, once the peer has noted the time. */
  ghost predicate Handled(
    c: Command, s: Surroundings, i: Inbox, o: Outbox, after: Inbox, outbox: Outbox, r: Result<seq<Packet>>)
  {
    && Processed(c, s, i, o.queue, after, outbox.queue, if r.Ok? then r.value else [])
    && (r.Err? <==> i.Rejects(c))
    && (outbox.throttle == if c.BandwidthLimit?
          then o.throttle.(outgoingLimit := c.outgoing, incomingLimit := c.incoming) else o.throttle)
    && (outbox.search == if c.PMTUReply? then o.search.Reply(c.size, c.token, s.time) else o.search)
  }

  lemma Finished(
    c: Command, s: Surroundings, i: Inbox, o: Outbox, after: Inbox, outbox: Outbox, r: Result<seq<Packet>>)
    requires i.Valid() && Handled(c, s, i.Hear(s.time), o, after, outbox, r)
    ensures Done(c, s, i, o, after, outbox, r)
  {
    HearingFirst(c, s, i, o.queue, after, outbox.queue, if r.Ok? then r.value else []);
  }

  function OutboxAfterAll(i: ValidInbox, o: Outbox, steps: seq<Step>): Outbox
    decreases |steps|
  {
    if steps == [] then o
    else
      var after := o.After(i, steps[0].command, steps[0].around);
      if i.Rejects(steps[0].command) then after else OutboxAfterAll(Next(i, steps[0]), after, steps[1..])
  }

  /** How the processing of a packet ends. */
  datatype Ending = Ending(inbox: Inbox, outbox: Outbox, result: Result<seq<Packet>>)

  /** With `packets` handed up so far, the steps still to come lead to `end`. */
  predicate LeadsTo(i: ValidInbox, o: Outbox, steps: seq<Step>, packets: seq<Packet>, end: Ending) {
    var (j, r) := ProcessAll(i, steps);
    && end.inbox == j && end.outbox == OutboxAfterAll(i, o, steps)
    && end.result == match r { case Err => Err case Ok(more) => Ok(packets + more) }
  }

  lemma LeadsToNext(i: ValidInbox, o: Outbox, steps: seq<Step>, packets: seq<Packet>, end: Ending)
    requires LeadsTo(i, o, steps, packets, end) && steps != []
    ensures
      var c, s := steps[0].command, steps[0].around;
      if i.Rejects(c) then end == Ending(i.After(c, s), o.After(i, c, s), Err)
      else LeadsTo(Next(i, steps[0]), o.After(i, c, s), steps[1..], packets + i.HandsUp(c, s), end)
  {
    if !i.Rejects(steps[0].command) {
      var (_, r) := ProcessAll(Next(i, steps[0]), steps[1..]);
      var first := Out(i, steps[0]);
      if r.Ok? {
        assert packets + (first + r.value) == packets + first + r.value;
      }
    }
  }

  lemma LeadsToDone(
    i: ValidInbox, o: Outbox, steps: seq<Step>, packets: seq<Packet>, end: Ending, after: Inbox, outbox: Outbox,
    r: Result<seq<Packet>>)
    requires LeadsTo(i, o, steps, packets, end) && steps != []
    requires Done(steps[0].command, steps[0].around, i, o, after, outbox, r)
    ensures
      if r.Err? then end == Ending(after, outbox, Err)
      else after.Valid() && LeadsTo(after, outbox, steps[1..], packets + r.value, end)
  {
    LeadsToNext(i, o, steps, packets, end);
  }

  lemma LeadsToStart(i: ValidInbox, o: Outbox, steps: seq<Step>)
    ensures
      LeadsTo(i, o, steps, [], Ending(ProcessAll(i, steps).0, OutboxAfterAll(i, o, steps), ProcessAll(i, steps).1))
  {
    var r := ProcessAll(i, steps).1;
    if r.Ok? {
      assert [] + r.value == r.value;
    }
  }

  lemma LeadsToEnd(i: ValidInbox, o: Outbox, packets: seq<Packet>, end: Ending)
    requires LeadsTo(i, o, [], packets, end)
    ensures end == Ending(i, o, Ok(packets))
  {
    assert packets + [] == packets;
  }

  /** A datagram as it arrives. */
  datatype Arrival = Arrival(datagram: bytes, around: Surroundings)

  /** The steps a datagram makes; none if it cannot be read. */
  function StepsIn(libs: Libraries, config: Config, a: Arrival): seq<Step> {
    match ReadBack(libs, config, a.datagram)
    case Err => []
    case Ok(cs) => StepsOf(cs, a.around)
  }

  /** One received datagram: a peer that cannot read it is unchanged. */
  function ProcessPacket(libs: Libraries, config: Config, i: ValidInbox, a: Arrival)
    : (ValidInbox, Result<seq<Packet>>)
  {
    if ReadBack(libs, config, a.datagram).Err? then (i, Err) else ProcessAll(i, StepsIn(libs, config, a))
  }

  /** A peer and everything it has handed up so far. */
  datatype Received = Received(inbox: ValidInbox, packets: seq<Packet>)

  function ReceiveOne(libs: Libraries, config: Config, r: Received, a: Arrival): Received {
    match ProcessPacket(libs, config, r.inbox, a)
    case (after, Err) => Received(after, r.packets)
    case (after, Ok(more)) => Received(after, r.packets + more)
  }

  /** All arrivals in turn. */
  function Receive(libs: Libraries, config: Config, i: ValidInbox, arrivals: seq<Arrival>): Received {
    if arrivals == [] then Received(i, [])
    else ReceiveOne(libs, config, Receive(libs, config, i, arrivals[..|arrivals| - 1]), arrivals[|arrivals| - 1])
  }

  /** The same, command by command. */
  function RunOf(i: ValidInbox, steps: seq<Step>): Received { Received(After(i, steps), HandedUp(i, steps)) }

  function AllSteps(libs: Libraries, config: Config, arrivals: seq<Arrival>): seq<Step> {
    if arrivals == [] then []
    else AllSteps(libs, config, arrivals[..|arrivals| - 1]) + StepsIn(libs, config, arrivals[|arrivals| - 1])
  }

  lemma FirstOfRun(i: ValidInbox, steps: seq<Step>)
    requires steps != []
    ensures After(i, steps) == After(Next(i, steps[0]), steps[1..])
    ensures HandedUp(i, steps) == Out(i, steps[0]) + HandedUp(Next(i, steps[0]), steps[1..])
  {
    FirstStep<ValidInbox, Step, Packet>(Next, Out, i, steps[0], steps[1..]);
    assert steps == [steps[0]] + steps[1..];
  }

  lemma StepKeepsConfig(i: ValidInbox, step: Step)
    ensures Next(i, step).config == i.config
  {
  }

  lemma StepMovesState(i: ValidInbox, step: Step)
    ensures Next(i, step).state ==
      match step.command
      case Disconnect(_) => Zombie
      case Connect(_, _, _, _, _) => if i.state == Idle then AcknowledgingConnect else i.state
      case VerifyConnect(_, _, _, _, _, _) =>
        if i.state == Connecting && !i.Rejects(step.command) then ConnectionSucceeded else i.state
      case _ => i.state
  {
  }

  lemma OnlyFragmentsTouchGroups(i: ValidInbox, step: Step)
    requires !step.command.SendFragment? && !step.command.SendUnreliableFragment?
    ensures Next(i, step).fragments == i.fragments
  {
  }

  lemma ReliableFragmentSettles(i: ValidInbox, c: Command, s: Surroundings)
    requires c.SendFragment?
    ensures i.After(c, s).fragments == i.AddFragment(c.number, StartOf(c, s), c.fragmentId, c.data).fragments
  {
    var heard := i.Hear(s.time);
    var acked := heard.Ack(c.number, 0);
    var g := acked.Joined(c.number, StartOf(c, s), c.fragmentId, c.data);
    assert acked.fragments == i.fragments;
    assert g == i.Joined(c.number, StartOf(c, s), c.fragmentId, c.data);
    if !(g.Reassemble().Some? && g.ordered) {
      assert acked.TakeFragment(c.number, StartOf(c, s), c.fragmentId, c.data)
        == acked.AddFragment(c.number, StartOf(c, s), c.fragmentId, c.data);
    }
  }

  // ----- rejection -----

  /** Some step is rejected. */
  predicate Rejected(i: ValidInbox, steps: seq<Step>)
    decreases |steps|
  {
    steps != [] && (i.Rejects(steps[0].command) || Rejected(Next(i, steps[0]), steps[1..]))
  }

  lemma {:induction false} FailsIfRejected(i: ValidInbox, steps: seq<Step>)
    ensures ProcessAll(i, steps).1 == Err <==> Rejected(i, steps)
    decreases |steps|
  {
    if steps != [] && !i.Rejects(steps[0].command) {
      FailsIfRejected(Next(i, steps[0]), steps[1..]);
    }
  }

  /** A VerifyConnect for another session id than that of `i`. */
  predicate IsForeign(i: Inbox, c: Command) { c.VerifyConnect? && c.outgoingSessionId != i.outgoingSessionId }

  /** A command after which a peer waits for no VerifyConnect any more. */
  predicate EndsWaiting(c: Command) { c.VerifyConnect? || c.Disconnect? }

  /** The first command that would end the waiting is a foreign VerifyConnect. */
  ghost predicate MeetsForeign(i: Inbox, steps: seq<Step>) {
    exists k :: 0 <= k < |steps| && IsForeign(i, steps[k].command)
      && forall j :: 0 <= j < k ==> !EndsWaiting(steps[j].command)
  }

  lemma SessionIdStays(i: ValidInbox, step: Step)
    ensures Next(i, step).outgoingSessionId == i.outgoingSessionId
  {
  }

  lemma WaitingGoesOnIff(i: ValidInbox, step: Step)
    ensures i.state != Connecting ==> Next(i, step).state != Connecting
    ensures i.state == Connecting ==>
      (Next(i, step).state == Connecting <==> !EndsWaiting(step.command) || i.Rejects(step.command))
  {
    StepMovesState(i, step);
  }

  lemma MeetsForeignLater(i: Inbox, steps: seq<Step>)
    requires steps != [] && !EndsWaiting(steps[0].command) && MeetsForeign(i, steps[1..])
    ensures MeetsForeign(i, steps)
  {
    var rest := steps[1..];
    var k :| 0 <= k < |rest| && IsForeign(i, rest[k].command)
      && forall j :: 0 <= j < k ==> !EndsWaiting(rest[j].command);
    assert IsForeign(i, steps[k + 1].command);
    forall j | 0 <= j < k + 1 ensures !EndsWaiting(steps[j].command) {
      if j > 0 {
        assert steps[j] == rest[j - 1];
      }
    }
  }

  lemma MeetsForeignSince(i: Inbox, steps: seq<Step>)
    requires steps != [] && !IsForeign(i, steps[0].command) && MeetsForeign(i, steps)
    ensures !EndsWaiting(steps[0].command) && MeetsForeign(i, steps[1..])
  {
    var rest := steps[1..];
    var k :| 0 <= k < |steps| && IsForeign(i, steps[k].command)
      && forall j :: 0 <= j < k ==> !EndsWaiting(steps[j].command);
    assert 0 < k && IsForeign(i, rest[k - 1].command);
    assert forall j :: 0 <= j < k - 1 ==> rest[j] == steps[j + 1];
  }

  lemma MeetsForeignFirst(i: Inbox, steps: seq<Step>)
    requires steps != []
    ensures MeetsForeign(i, steps) <==>
      IsForeign(i, steps[0].command) || (!EndsWaiting(steps[0].command) && MeetsForeign(i, steps[1..]))
  {
    if IsForeign(i, steps[0].command) {
      assert MeetsForeign(i, steps);
    } else {
      if MeetsForeign(i, steps) {
        MeetsForeignSince(i, steps);
      }
      if !EndsWaiting(steps[0].command) && MeetsForeign(i, steps[1..]) {
        MeetsForeignLater(i, steps);
      }
    }
  }

  lemma {:induction false} RejectedIff(i: ValidInbox, steps: seq<Step>)
    ensures Rejected(i, steps) <==> i.state == Connecting && MeetsForeign(i, steps)
    decreases |steps|
  {
    if steps != [] {
      WaitingGoesOnIff(i, steps[0]);
      SessionIdStays(i, steps[0]);
      MeetsForeignFirst(i, steps);
      RejectedIff(Next(i, steps[0]), steps[1..]);
      SameForeign(i, Next(i, steps[0]), steps[1..]);
    }
  }

  lemma SameForeign(i: Inbox, j: Inbox, steps: seq<Step>)
    requires i.outgoingSessionId == j.outgoingSessionId
    ensures MeetsForeign(i, steps) <==> MeetsForeign(j, steps)
  {
    assert forall k :: 0 <= k < |steps| ==> (IsForeign(i, steps[k].command) <==> IsForeign(j, steps[k].command));
  }

  /** A whole packet is lost, with all that its earlier commands handed up, exactly when the peer waits for a
      VerifyConnect and the first command that would end the waiting is a VerifyConnect for another session. */
  lemma PacketIsLostIff(i: ValidInbox, steps: seq<Step>)
    ensures ProcessAll(i, steps).1 == Err <==> i.state == Connecting && MeetsForeign(i, steps)
  {
    FailsIfRejected(i, steps);
    RejectedIff(i, steps);
  }

  /** Otherwise the loop over a packet is its commands one after another. */
  lemma {:induction false} ProcessAllIsRun(i: ValidInbox, steps: seq<Step>)
    requires !Rejected(i, steps)
    ensures ProcessAll(i, steps) == (After(i, steps), Ok(HandedUp(i, steps)))
    decreases |steps|
  {
    if steps != [] {
      ProcessAllIsRun(Next(i, steps[0]), steps[1..]);
      FirstOfRun(i, steps);
    }
  }

  lemma {:induction false} RejectedInParts(i: ValidInbox, a: seq<Step>, b: seq<Step>)
    ensures Rejected(i, a + b) <==> Rejected(i, a) || Rejected(After(i, a), b)
    decreases |a|
  {
    if a == [] {
      assert a + b == b;
    } else {
      assert (a + b)[0] == a[0] && (a + b)[1..] == a[1..] + b;
      RejectedInParts(Next(i, a[0]), a[1..], b);
      FirstOfRun(i, a);
    }
  }

  lemma PacketIsRun(libs: Libraries, config: Config, i: ValidInbox, a: Arrival)
    requires !Rejected(i, StepsIn(libs, config, a))
    ensures
      var steps := StepsIn(libs, config, a);
      var (after, r) := ProcessPacket(libs, config, i, a);
      after == After(i, steps) && HandedUp(i, steps) == if r.Ok? then r.value else []
  {
    ProcessAllIsRun(i, StepsIn(libs, config, a));
  }

  lemma OneMoreIsRun(libs: Libraries, config: Config, i: ValidInbox, steps: seq<Step>, a: Arrival)
    requires !Rejected(After(i, steps), StepsIn(libs, config, a))
    ensures ReceiveOne(libs, config, RunOf(i, steps), a) == RunOf(i, steps + StepsIn(libs, config, a))
  {
    PacketIsRun(libs, config, After(i, steps), a);
    RunInParts<ValidInbox, Step, Packet>(Next, Out, i, steps, StepsIn(libs, config, a));
    assert HandedUp(i, steps) + [] == HandedUp(i, steps);
  }

  /** If no command of a run of datagrams is rejected, what the peer hands up is what the commands do, in order. */
  lemma {:induction false} ReceiveIsRun(libs: Libraries, config: Config, i: ValidInbox, arrivals: seq<Arrival>)
    requires !(i.state == Connecting && MeetsForeign(i, AllSteps(libs, config, arrivals)))
    ensures Receive(libs, config, i, arrivals) == RunOf(i, AllSteps(libs, config, arrivals))
    decreases |arrivals|
  {
    if arrivals != [] {
      var before, last := arrivals[..|arrivals| - 1], arrivals[|arrivals| - 1];
      var steps := AllSteps(libs, config, before);
      RejectedIff(i, AllSteps(libs, config, arrivals));
      RejectedIff(i, steps);
      RejectedInParts(i, steps, StepsIn(libs, config, last));
      ReceiveIsRun(libs, config, i, before);
      OneMoreIsRun(libs, config, i, steps, last);
    }
  }
}

/** A peer as the session table drives it: what datagrams, packets from the user and updates make of it. */
module PeerSessions {
  import opened Numbers
  import opened Clock
  import opened Command
  import opened Framing
  import opened Config
  import opened Queue
  import opened Fragmenter
  import opened Flush
  import opened Bandwidth
  import opened Processor
  import Pmtu
  import Acknowledgment
  import S = Sessions

  /** What a call takes from outside beside the time. */
  datatype Outside = Outside(randomPeerId: u16, timestamp: u32, rto: Duration, token: u32, noise: nat -> byte)

  /** What a call wants done: a datagram sent, or an event emitted. */
  datatype Action = Transmit(datagram: bytes) | EmitConnect | EmitPacket(packet: Packet)

  function Transmits(datagrams: seq<bytes>): seq<Action> {
    seq(|datagrams|, i requires 0 <= i < |datagrams| => Transmit(datagrams[i]))
  }

  function Emits(packets: seq<Packet>): seq<Action> {
    seq(|packets|, i requires 0 <= i < |packets| => EmitPacket(packets[i]))
  }

  /** A peer with its queue and the numbers it gives out; `lastSent` is never moved. */
  datatype Remote = Remote(
    inbox: ValidInbox, outbox: Outbox, nextUnreliable: u16, lastSent: Instant)
  {
    predicate Valid() { outbox.queue.Valid() && outbox.queue.limit == inbox.config.maxWaitingData }

    /** The largest datagram that the flush loop asks for. */
    function Cap(): nat { Min(outbox.search.fragmentSize, inbox.config.receiveBufferMaxSize) }

    /** The commands that a packet from the user becomes. */
    function CommandsFor(p: Packet): seq<Command> {
      match p.delivery
      case Reliable =>
        ReliableData(p.channelId, inbox.acks.sequenceNumber, p.ordering != Acknowledgment.Unordered)
          .Commands(inbox.config, Cap(), p.data)
      case Unreliable =>
        if p.ordering == Acknowledgment.Unsequenced
        then UnsequencedCommands(inbox.config, Cap(), p.channelId, inbox.window.outgoing, p.data)
        else UnreliableData(p.channelId, nextUnreliable).Commands(inbox.config, Cap(), p.data)
    }

    /** The numbers that such a packet uses up; a reliable one uses none. */
    function Numbered(p: Packet): Remote {
      if p.delivery.Reliable? then this
      else if p.ordering == Acknowledgment.Unsequenced
      then
        var next := WrappingAdd(inbox.window.outgoing, Wrap(|CommandsFor(p)|));
        this.(inbox := inbox.(window := inbox.window.(outgoing := next)))
      else this.(nextUnreliable := WrappingAdd(nextUnreliable, 1))
    }

    /** Nothing was sent or heard for the configured interval. */
    predicate IsQuiet(time: Instant) {
      && inbox.IsEstablished() && inbox.config.heartbeatInterval.Some?
      && Since(time, lastSent) >= inbox.config.heartbeatInterval.value
      && Since(time, inbox.lastHeard) >= inbox.config.heartbeatInterval.value
    }

    /** The queue flushed at the cap of now. */
    function Flushes(libs: Libraries): (Remote, seq<bytes>) {
      var f := FlushAll(libs, inbox.config, Cap(), outbox.queue, outbox.throttle);
      (this.(outbox := outbox.(queue := f.queue, throttle := f.throttle)), f.sent)
    }

    function Queues(cs: seq<Command>): Remote { this.(outbox := outbox.(queue := outbox.queue.EnqueueAll(cs))) }

    /** A datagram came in and the bandwidth limit lets it pass. */
    function Takes(libs: Libraries, payload: bytes, s: Surroundings): (Remote, seq<Action>) {
      var a := Arrival(payload, s);
      var (after, r) := ProcessPacket(libs, inbox.config, inbox, a);
      var outbox' := OutboxAfterAll(inbox, outbox, StepsIn(libs, inbox.config, a));
      match r
      case Err => (this.(inbox := after, outbox := outbox'), [])
      case Ok(packets) =>
        var announced := if !after.IsEstablished() && after.RecordRecv().IsEstablished() then [EmitConnect] else [];
        (this.(inbox := after.RecordRecv(), outbox := outbox'), announced + Emits(packets))
    }

    /** `process_packet` */
    function Receive(libs: Libraries, payload: bytes, s: Surroundings): (Remote, seq<Action>) {
      if payload == [] then (this, [])
      else
        var t := outbox.throttle.UpdateWindow(s.time);
        if !t.CanReceive() then (this.(outbox := outbox.(throttle := t)), [])
        else this.(outbox := outbox.(throttle := t.RecordReceived(Low32(|payload|)))).Takes(libs, payload, s)
    }

    /** The peer with a packet from the user in its queue, behind the greeting if it is the first. */
    function Prepared(p: Packet): Remote {
      this.(inbox := inbox.RecordSend()).Queues(inbox.Greeting() + CommandsFor(p)).Numbered(p)
    }

    /** `process_event` */
    function Send(libs: Libraries, p: Packet): (Remote, seq<Action>) {
      var announced := if !inbox.IsEstablished() && inbox.RecordSend().IsEstablished() then [EmitConnect] else [];
      var (after, sent) := Prepared(p).Flushes(libs);
      (after, announced + Transmits(sent))
    }

    /** The peer with its bandwidth window checked, and a ping in its queue if it has been quiet. */
    function Checked(time: Instant, o: Outside): Remote {
      var checked := this.(outbox := outbox.(throttle := outbox.throttle.UpdateWindow(time)));
      checked.Queues(if IsQuiet(time) then [Ping(o.timestamp)] else [])
    }

    /** `update` */
    function Update(libs: Libraries, time: Instant, o: Outside): (Remote, seq<Action>) {
      var (flushed, sent) := Checked(time, o).Flushes(libs);
      (flushed.Polls(time, o), Transmits(sent))
    }

    /** The PMTU search polled, and the probe that it wants sent in the queue. */
    function Polls(time: Instant, o: Outside): Remote {
      var (search, probe) := outbox.search.Poll(inbox.config, time, o.rto, o.token, o.noise);
      var polled := this.(outbox := outbox.(search := search));
      if probe.Some? then polled.Queues([probe.value]) else polled
    }

    /** `disconnect`, which the host calls beside the session table. */
    function Disconnect(): Remote {
      if Rank(inbox.state) >= 4 then this
      else this.(inbox := inbox.(state := Disconnecting)).Queues([Command.Disconnect(0)])
    }

    /** `should_drop` */
    predicate ShouldDrop(time: Instant) {
      || inbox.state == Zombie
      || Wrap(|inbox.acks.sent|) > inbox.config.maxPacketsInFlight
      || Since(time, inbox.lastHeard) >= inbox.config.idleConnectionTimeout
    }
  }

  function NewRemote(config: Config, outgoingSessionId: u16, connectId: u32, time: Instant): Remote {
    Remote(NewInbox(config, outgoingSessionId, connectId, time),
           Outbox(Queue([], 0, config.maxWaitingData),
                  Throttle(0, 0, time, config.outgoingBandwidthLimit, config.incomingBandwidthLimit),
                  Pmtu.Initial(config, time)),
           0, time)
  }

  // ----- runs of calls -----

  datatype Call =
    | Receives(payload: bytes, around: Surroundings)
    | Sends(packet: Packet, at: Instant)
    | Updates(time: Instant, outside: Outside)
    | Disconnects

  /** One call; `process_event` makes nothing of its time. */
  function React(libs: Libraries, r: Remote, c: Call): (Remote, seq<Action>) {
    match c
    case Receives(payload, s) => r.Receive(libs, payload, s)
    case Sends(p, _) => r.Send(libs, p)
    case Updates(time, o) => r.Update(libs, time, o)
    case Disconnects => (r.Disconnect(), [])
  }

  function AfterCalls(libs: Libraries, r: Remote, calls: seq<Call>): Remote
    decreases |calls|
  {
    if calls == [] then r else AfterCalls(libs, React(libs, r, calls[0]).0, calls[1..])
  }

  function ActionsOf(libs: Libraries, r: Remote, calls: seq<Call>): seq<Action>
    decreases |calls|
  {
    if calls == [] then [] else React(libs, r, calls[0]).1 + ActionsOf(libs, React(libs, r, calls[0]).0, calls[1..])
  }

  // ----- the state only moves forward -----

  function Rank(state: PeerState): nat {
    match state
    case Idle => 0
    case Connecting => 1
    case AcknowledgingConnect => 1
    case ConnectionSucceeded => 2
    case Connected => 3
    case Disconnecting => 4
    case Zombie => 5
  }

  /** From `i` to `j` a peer keeps its configuration and goes no step back; one that opened the handshake itself
      does not come to answer one. */
  predicate Forward(i: Inbox, j: Inbox) {
    && j.config == i.config && Rank(i.state) <= Rank(j.state)
    && (i.state != Idle && i.state != AcknowledgingConnect ==> j.state != AcknowledgingConnect)
  }

  lemma {:induction false} PacketGoesForward(i: ValidInbox, steps: seq<Step>)
    ensures Forward(i, ProcessAll(i, steps).0)
    decreases |steps|
  {
    if steps != [] {
      StepGoesForward(i, steps[0]);
      if !i.Rejects(steps[0].command) {
        PacketGoesForward(Next(i, steps[0]), steps[1..]);
      }
    }
  }

  lemma StepGoesForward(i: ValidInbox, step: Step)
    ensures Forward(i, Next(i, step))
  {
    StepKeepsConfig(i, step);
    StepMovesState(i, step);
  }

  /** An announcement comes with the step to a connection, which an opener of the handshake never takes here. */
  predicate Announces(i: Inbox, j: Inbox) {
    && !i.IsEstablished() && j.IsEstablished()
    && (i.config.useConnectionHandshake ==> i.state == Idle || i.state == AcknowledgingConnect)
  }

  lemma ReceiptGoesForward(i: Inbox, j: Inbox)
    requires Forward(i, j)
    ensures Forward(i, j.RecordRecv())
    ensures !j.IsEstablished() && j.RecordRecv().IsEstablished() ==> Announces(i, j.RecordRecv())
  {
  }

  lemma TakesGoesForward(libs: Libraries, r: Remote, payload: bytes, s: Surroundings)
    ensures Forward(r.inbox, r.Takes(libs, payload, s).0.inbox)
    ensures EmitConnect in r.Takes(libs, payload, s).1 ==> Announces(r.inbox, r.Takes(libs, payload, s).0.inbox)
  {
    var a := Arrival(payload, s);
    PacketGoesForward(r.inbox, StepsIn(libs, r.inbox.config, a));
    ReceiptGoesForward(r.inbox, ProcessPacket(libs, r.inbox.config, r.inbox, a).0);
  }

  lemma ReceiveGoesForward(libs: Libraries, r: Remote, payload: bytes, s: Surroundings)
    ensures Forward(r.inbox, r.Receive(libs, payload, s).0.inbox)
    ensures EmitConnect in r.Receive(libs, payload, s).1 ==> Announces(r.inbox, r.Receive(libs, payload, s).0.inbox)
  {
    var t := r.outbox.throttle.UpdateWindow(s.time);
    TakesGoesForward(libs, r.(outbox := r.outbox.(throttle := t.RecordReceived(Low32(|payload|)))), payload, s);
  }

  lemma SendGoesForward(libs: Libraries, r: Remote, p: Packet)
    ensures Forward(r.inbox, r.Send(libs, p).0.inbox) && EmitConnect !in r.Send(libs, p).1
  {
  }

  lemma UpdateGoesForward(libs: Libraries, r: Remote, time: Instant, o: Outside)
    ensures r.Update(libs, time, o).0.inbox == r.inbox && EmitConnect !in r.Update(libs, time, o).1
  {
  }

  lemma CallGoesForward(libs: Libraries, r: Remote, c: Call)
    ensures Forward(r.inbox, React(libs, r, c).0.inbox)
    ensures EmitConnect in React(libs, r, c).1 ==> Announces(r.inbox, React(libs, r, c).0.inbox)
  {
    match c {
      case Receives(payload, s) => ReceiveGoesForward(libs, r, payload, s);
      case Sends(p, _) => SendGoesForward(libs, r, p);
      case Updates(time, o) => UpdateGoesForward(libs, r, time, o);
      case Disconnects =>
    }
  }

  /** Whatever is received, sent and updated, a peer never goes back. */
  lemma {:induction false} PeerGoesForward(libs: Libraries, r: Remote, calls: seq<Call>)
    ensures Forward(r.inbox, AfterCalls(libs, r, calls).inbox)
    decreases |calls|
  {
    if calls != [] {
      CallGoesForward(libs, r, calls[0]);
      PeerGoesForward(libs, React(libs, r, calls[0]).0, calls[1..]);
    }
  }

  /** How often the peer tells its user that it is connected. */
  function Announcements(actions: seq<Action>): nat { multiset(actions)[EmitConnect] }

  lemma EmitsNoConnect(packets: seq<Packet>, datagrams: seq<bytes>)
    ensures EmitConnect !in Emits(packets) && EmitConnect !in Transmits(datagrams)
  {
  }

  lemma CallAnnouncesAtMostOnce(libs: Libraries, r: Remote, c: Call)
    ensures Announcements(React(libs, r, c).1) <= 1
  {
    if c.Receives? {
      var (_, result) := ProcessPacket(libs, r.inbox.config, r.inbox, Arrival(c.payload, c.around));
      var emitted := if result.Ok? then Emits(result.value) else [];
      EmitsNoConnect(if result.Ok? then result.value else [], []);
      var actions := React(libs, r, c).1;
      assert actions == [] || actions == emitted || actions == [EmitConnect] + emitted;
    } else {
      CallGoesForward(libs, r, c);
    }
  }

  lemma AnnouncedInParts(a: seq<Action>, b: seq<Action>)
    ensures Announcements(a + b) == Announcements(a) + Announcements(b)
    ensures Announcements(a) > 0 <==> EmitConnect in a
  {
  }

  /** Over its whole life a peer announces its connection at most once, and never again once it is established. */
  lemma {:induction false} AnnouncedAtMostOnce(libs: Libraries, r: Remote, calls: seq<Call>)
    ensures Announcements(ActionsOf(libs, r, calls)) <= if Rank(r.inbox.state) < 2 then 1 else 0
    decreases |calls|
  {
    if calls != [] {
      CallGoesForward(libs, r, calls[0]);
      CallAnnouncesAtMostOnce(libs, r, calls[0]);
      AnnouncedAtMostOnce(libs, React(libs, r, calls[0]).0, calls[1..]);
      AnnouncedInParts(React(libs, r, calls[0]).1, ActionsOf(libs, React(libs, r, calls[0]).0, calls[1..]));
    }
  }

  lemma {:induction false} WaitingAnnouncesNothing(libs: Libraries, r: Remote, calls: seq<Call>)
    requires r.inbox.config.useConnectionHandshake
    requires r.inbox.state != Idle && r.inbox.state != AcknowledgingConnect
    ensures EmitConnect !in ActionsOf(libs, r, calls)
    decreases |calls|
  {
    if calls != [] {
      CallGoesForward(libs, r, calls[0]);
      WaitingAnnouncesNothing(libs, React(libs, r, calls[0]).0, calls[1..]);
    }
  }

  /** The side that opens the formal handshake never announces its connection, whatever it gets in answer. */
  lemma InitiatorAnnouncesNothing(libs: Libraries, r: Remote, first: Packet, at: Instant, calls: seq<Call>)
    requires r.inbox.config.useConnectionHandshake && r.inbox.state == Idle
    ensures EmitConnect !in ActionsOf(libs, r, [Sends(first, at)] + calls)
  {
    CallGoesForward(libs, r, Sends(first, at));
    assert ([Sends(first, at)] + calls)[1..] == calls;
    WaitingAnnouncesNothing(libs, r.Send(libs, first).0, calls);
  }

  // ----- heartbeats -----

  lemma {:induction false} LastSentStays(libs: Libraries, r: Remote, calls: seq<Call>)
    ensures AfterCalls(libs, r, calls).lastSent == r.lastSent
    decreases |calls|
  {
    if calls != [] {
      LastSentStays(libs, React(libs, r, calls[0]).0, calls[1..]);
    }
  }

  /** Once a peer is older than the interval, whether it pings depends only on what it heard, not on what it sent. */
  lemma HeartbeatIgnoresSending(libs: Libraries, r: Remote, calls: seq<Call>, time: Instant)
    requires r.inbox.config.heartbeatInterval.Some?
    requires Since(time, r.lastSent) >= r.inbox.config.heartbeatInterval.value
    ensures
      var after := AfterCalls(libs, r, calls);
      after.IsQuiet(time) <==>
        after.inbox.IsEstablished() && Since(time, after.inbox.lastHeard) >= r.inbox.config.heartbeatInterval.value
  {
    LastSentStays(libs, r, calls);
    PeerGoesForward(libs, r, calls);
  }

  // ----- the queue stays in order -----

  lemma {:induction false} PacketKeepsQueueValid(i: ValidInbox, o: Outbox, steps: seq<Step>)
    requires o.queue.Valid()
    ensures OutboxAfterAll(i, o, steps).queue.Valid() && OutboxAfterAll(i, o, steps).queue.limit == o.queue.limit
    decreases |steps|
  {
    if steps != [] {
      var c, s := steps[0].command, steps[0].around;
      EnqueueAllKeepsValid(o.queue, i.Replies(c, s));
      if !i.Rejects(c) {
        PacketKeepsQueueValid(Next(i, steps[0]), o.After(i, c, s), steps[1..]);
      }
    }
  }

  lemma QueuesKeepsValid(r: Remote, cs: seq<Command>)
    requires r.Valid()
    ensures r.Queues(cs).Valid()
  {
    EnqueueAllKeepsValid(r.outbox.queue, cs);
  }

  lemma FlushesKeepsValid(libs: Libraries, r: Remote)
    requires r.Valid()
    ensures r.Flushes(libs).0.Valid()
  {
    FlushKeepsValid(libs, r.inbox.config, r.Cap(), r.outbox.queue, r.outbox.throttle);
  }

  lemma ReceiveKeepsValid(libs: Libraries, r: Remote, payload: bytes, s: Surroundings)
    requires r.Valid()
    ensures r.Receive(libs, payload, s).0.Valid()
  {
    var steps := StepsIn(libs, r.inbox.config, Arrival(payload, s));
    ReceiveGoesForward(libs, r, payload, s);
    var t := r.outbox.throttle.UpdateWindow(s.time);
    PacketKeepsQueueValid(r.inbox, r.outbox.(throttle := t.RecordReceived(Low32(|payload|))), steps);
  }

  lemma PreparedIsValid(r: Remote, p: Packet)
    requires r.Valid()
    ensures r.Prepared(p).Valid()
  {
    QueuesKeepsValid(r.(inbox := r.inbox.RecordSend()), r.inbox.Greeting() + r.CommandsFor(p));
  }

  lemma SendKeepsValid(libs: Libraries, r: Remote, p: Packet)
    requires r.Valid()
    ensures r.Send(libs, p).0.Valid()
  {
    PreparedIsValid(r, p);
    FlushesKeepsValid(libs, r.Prepared(p));
  }

  lemma CheckedIsValid(r: Remote, time: Instant, o: Outside)
    requires r.Valid()
    ensures r.Checked(time, o).Valid()
  {
    var checked := r.(outbox := r.outbox.(throttle := r.outbox.throttle.UpdateWindow(time)));
    QueuesKeepsValid(checked, if r.IsQuiet(time) then [Ping(o.timestamp)] else []);
  }

  lemma UpdateKeepsValid(libs: Libraries, r: Remote, time: Instant, o: Outside)
    requires r.Valid()
    ensures r.Update(libs, time, o).0.Valid()
  {
    CheckedIsValid(r, time, o);
    FlushesKeepsValid(libs, r.Checked(time, o));
    var flushed := r.Checked(time, o).Flushes(libs).0;
    var (search, probe) := flushed.outbox.search.Poll(r.inbox.config, time, o.rto, o.token, o.noise);
    if probe.Some? {
      QueuesKeepsValid(flushed.(outbox := flushed.outbox.(search := search)), [probe.value]);
    }
  }

  lemma CallKeepsValid(libs: Libraries, r: Remote, c: Call)
    requires r.Valid()
    ensures React(libs, r, c).0.Valid()
  {
    match c {
      case Receives(payload, s) => ReceiveKeepsValid(libs, r, payload, s);
      case Sends(p, _) => SendKeepsValid(libs, r, p);
      case Updates(time, o) => UpdateKeepsValid(libs, r, time, o);
      case Disconnects => QueuesKeepsValid(r.(inbox := r.inbox.(state := Disconnecting)), [Command.Disconnect(0)]);
    }
  }

  /** Whatever a peer goes through, its byte count is that of its queue and within the configured limit. */
  lemma {:induction false} CallsKeepValid(libs: Libraries, r: Remote, calls: seq<Call>)
    requires r.Valid()
    ensures AfterCalls(libs, r, calls).Valid()
    decreases |calls|
  {
    if calls != [] {
      CallKeepsValid(libs, r, calls[0]);
      CallsKeepValid(libs, React(libs, r, calls[0]).0, calls[1..]);
    }
  }

  // ----- peers in the session table -----

  /** Everything that a table of peers takes from outside. */
  datatype World = World(
    libs: Libraries, config: Config, ids: (S.Address, Instant) -> (u16, u32), outside: (Remote, Instant) -> Outside)

  /** The peer as an engine of the session table. */
  function PeerEngine(w: World): S.Engine<Remote, Packet> {
    S.Engine(
      (a: S.Address, time: Instant) => NewRemote(w.config, w.ids(a, time).0, w.ids(a, time).1, time),
      (r: Remote) => r.inbox.IsEstablished(),
      (r: Remote, p: bytes, time: Instant) =>
        r.Receive(w.libs, p, Surroundings(time, w.outside(r, time).randomPeerId)).0,
      (r: Remote, p: Packet, time: Instant) => r.Send(w.libs, p).0,
      (r: Remote, time: Instant) => r.Update(w.libs, time, w.outside(r, time)).0,
      (r: Remote, time: Instant) => (r, r.ShouldDrop(time)))
  }

  /** Disconnecting or disconnected. */
  predicate IsGone(r: Remote) { Rank(r.inbox.state) >= 4 }

  lemma PeersSettle(w: World)
    ensures S.Settles(PeerEngine(w), IsGone)
  {
    var engine := PeerEngine(w);
    forall r: Remote, p: bytes, time: Instant
      ensures S.Moves(engine, IsGone, r, engine.processPacket(r, p, time))
    {
      ReceiveGoesForward(w.libs, r, p, Surroundings(time, w.outside(r, time).randomPeerId));
    }
    forall r: Remote, p: Packet, time: Instant
      ensures engine.isEstablished(engine.processEvent(r, p, time)) ==> engine.isEstablished(r)
    {
      EventEstablishesNone(w.libs, r, p);
    }
  }

  lemma EventEstablishesNone(libs: Libraries, r: Remote, p: Packet)
    ensures r.Send(libs, p).0.inbox.IsEstablished() <==> r.inbox.IsEstablished()
  {
  }

  /** So a table of peers counts soundly: at every point of a poll the running count is at least the number of peers on
      their way to a connection, never below zero, and packets alone never take it past the limit. */
  lemma PeersAreCounted(
    w: World, limits: S.Limits, sessions: map<S.Address, Remote>, ps: seq<S.Inbound>,
    es: seq<S.UserEvent<Packet>>, time: Instant)
    ensures
      var engine := PeerEngine(w);
      var heard := S.HearAll(engine, limits, S.Counted(engine, sessions), ps, time);
      && |S.Waiting(engine, IsGone, heard.sessions)| <= heard.unestablished
      && heard.unestablished <= Max(|S.Unestablished(engine, sessions)|, limits.maxUnestablished)
      && S.SendAll(engine, limits, heard, es, time).unestablished == heard.unestablished
  {
    PeersSettle(w);
    S.CountIsSound(PeerEngine(w), limits, IsGone, sessions, ps, es, time);
  }

  /** After a poll no peer is left that disconnected, is silent for too long or has too much in flight. */
  lemma SurvivorsAreAlive(
    w: World, limits: S.Limits, sessions: map<S.Address, Remote>, ps: seq<S.Inbound>,
    es: seq<S.UserEvent<Packet>>, time: Instant)
    ensures
      var after := S.Poll(PeerEngine(w), limits, sessions, ps, es, time);
      forall a :: a in after ==> !after[a].ShouldDrop(time)
  {
  }
}

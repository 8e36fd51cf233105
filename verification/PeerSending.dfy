/** What a peer sends over runs of calls: how large, how far each call goes, and that nothing is lost or invented. */
module PeerSending {
  import opened Numbers
  import opened Clock
  import opened Command
  import opened Framing
  import opened Config
  import opened Queue
  import opened Packer
  import opened Bandwidth
  import opened Flush
  import opened QueueLife
  import opened Processor
  import opened PeerSessions
  import opened PeerBandwidth

  /** The most that a datagram may take if no probe leads it. */
  function Most(r: Remote): nat { Min(r.outbox.search.fragmentSize, r.inbox.config.receiveBufferMaxSize) }

  // ----- one call -----

  lemma PreparedOutbox(r: Remote, p: Packet)
    ensures r.Prepared(p).outbox.queue == r.outbox.queue.EnqueueAll(r.inbox.Greeting() + r.CommandsFor(p))
    ensures r.Prepared(p).outbox.throttle == r.outbox.throttle && r.Prepared(p).Cap() == Most(r)
    ensures r.Prepared(p).inbox.config == r.inbox.config
  {
  }

  lemma FlushesOutbox(libs: Libraries, r: Remote)
    ensures
      var f := FlushAll(libs, r.inbox.config, r.Cap(), r.outbox.queue, r.outbox.throttle);
      var (after, sent) := r.Flushes(libs);
      sent == f.sent && after.outbox.queue == f.queue && after.outbox.throttle == f.throttle
  {
  }

  lemma SendDatagrams(libs: Libraries, r: Remote, p: Packet, at: Instant)
    ensures
      var f := FlushAll(libs, r.inbox.config, Most(r), r.outbox.queue.EnqueueAll(r.inbox.Greeting() + r.CommandsFor(p)),
                        r.outbox.throttle);
      var (after, actions) := React(libs, r, Sends(p, at));
      && Datagrams(actions) == f.sent
      && after.outbox.queue == f.queue && after.outbox.throttle == f.throttle
  {
    PreparedOutbox(r, p);
    FlushesOutbox(libs, r.Prepared(p));
    SendTransmits(libs, r, p);
    DatagramsOfTransmits(r.Prepared(p).Flushes(libs).1);
  }

  /** The ping of a quiet peer. */
  function Heartbeat(r: Remote, time: Instant, o: Outside): seq<Command> {
    if r.IsQuiet(time) then [Ping(o.timestamp)] else []
  }

  /** The probe that the PMTU search wants sent. */
  function Probing(r: Remote, time: Instant, o: Outside): seq<Command> {
    var probe := r.outbox.search.Poll(r.inbox.config, time, o.rto, o.token, o.noise).1;
    if probe.Some? then [probe.value] else []
  }

  lemma UpdateDatagrams(libs: Libraries, r: Remote, time: Instant, o: Outside)
    ensures
      var f := FlushAll(libs, r.inbox.config, Most(r), r.outbox.queue.EnqueueAll(Heartbeat(r, time, o)),
                        r.outbox.throttle.UpdateWindow(time));
      var (after, actions) := React(libs, r, Updates(time, o));
      && Datagrams(actions) == f.sent
      && after.outbox.queue == f.queue.EnqueueAll(Probing(r, time, o)) && after.outbox.throttle == f.throttle
  {
    DatagramsOfTransmits(r.Checked(time, o).Flushes(libs).1);
  }

  /** Every datagram of a call is at most the fragment size and the receive buffer, unless a probe leads it. */
  lemma CallIsWithin(libs: Libraries, r: Remote, c: Call)
    requires r.Valid()
    ensures AllAreWithin(libs, r.inbox.config, Most(r), Datagrams(React(libs, r, c).1))
  {
    match c {
      case Receives(payload, s) => ReceiveTransmitsNothing(libs, r, payload, s);
      case Sends(p, at) =>
        var q := r.outbox.queue.EnqueueAll(r.inbox.Greeting() + r.CommandsFor(p));
        EnqueueAllKeepsValid(r.outbox.queue, r.inbox.Greeting() + r.CommandsFor(p));
        SendDatagrams(libs, r, p, at);
        FlushIsWithin(libs, r.inbox.config, Most(r), q, r.outbox.throttle);
      case Updates(time, o) =>
        var q := r.outbox.queue.EnqueueAll(Heartbeat(r, time, o));
        EnqueueAllKeepsValid(r.outbox.queue, Heartbeat(r, time, o));
        UpdateDatagrams(libs, r, time, o);
        FlushIsWithin(libs, r.inbox.config, Most(r), q, r.outbox.throttle.UpdateWindow(time));
      case Disconnects =>
    }
  }

  /** A send goes on until nothing waits, the bandwidth is used up, the head fits no datagram or encoding failed. */
  lemma SendGoesOn(libs: Libraries, r: Remote, p: Packet, at: Instant)
    requires r.Valid()
    ensures
      var q := r.outbox.queue.EnqueueAll(r.inbox.Greeting() + r.CommandsFor(p));
      var after := React(libs, r, Sends(p, at)).0.outbox;
      IsStuck(libs, r.inbox.config, Most(r), q.commands, after.queue, after.throttle)
  {
    var q := r.outbox.queue.EnqueueAll(r.inbox.Greeting() + r.CommandsFor(p));
    EnqueueAllKeepsValid(r.outbox.queue, r.inbox.Greeting() + r.CommandsFor(p));
    SendDatagrams(libs, r, p, at);
    FlushGoesOn(libs, r.inbox.config, Most(r), q, r.outbox.throttle);
  }

  /** So does an update, before it puts the next probe into the queue. */
  lemma UpdateGoesOn(libs: Libraries, r: Remote, time: Instant, o: Outside) returns (left: Queue)
    requires r.Valid()
    ensures
      var q := r.outbox.queue.EnqueueAll(Heartbeat(r, time, o));
      var after := React(libs, r, Updates(time, o)).0.outbox;
      && after.queue == left.EnqueueAll(Probing(r, time, o))
      && IsStuck(libs, r.inbox.config, Most(r), q.commands, left, after.throttle)
  {
    var q := r.outbox.queue.EnqueueAll(Heartbeat(r, time, o));
    EnqueueAllKeepsValid(r.outbox.queue, Heartbeat(r, time, o));
    UpdateDatagrams(libs, r, time, o);
    FlushGoesOn(libs, r.inbox.config, Most(r), q, r.outbox.throttle.UpdateWindow(time));
    left := FlushAll(libs, r.inbox.config, Most(r), q, r.outbox.throttle.UpdateWindow(time)).queue;
  }

  // ----- the life of the queue -----

  function Puts(cs: seq<Command>): seq<QueueEvent>
    decreases |cs|
  {
    if cs == [] then [] else [Enqueues(cs[0])] + Puts(cs[1..])
  }

  /** What the commands of a packet make the peer enqueue. */
  function RepliesOver(i: ValidInbox, steps: seq<Step>): seq<Command>
    decreases |steps|
  {
    if steps == [] then []
    else
      i.Replies(steps[0].command, steps[0].around)
      + if i.Rejects(steps[0].command) then [] else RepliesOver(Next(i, steps[0]), steps[1..])
  }

  /** What a call does to the queue, in order. */
  function EventsOf(libs: Libraries, r: Remote, c: Call): seq<QueueEvent> {
    match c
    case Receives(payload, s) =>
      if LetsIn(r, payload, s.time)
      then Puts(RepliesOver(r.inbox, StepsIn(libs, r.inbox.config, Arrival(payload, s)))) else []
    case Sends(p, _) => Puts(r.inbox.Greeting() + r.CommandsFor(p)) + [Flushes(Most(r), r.outbox.throttle)]
    case Updates(time, o) =>
      Puts(Heartbeat(r, time, o)) + ([Flushes(Most(r), r.outbox.throttle.UpdateWindow(time))]
                                     + Puts(Probing(r, time, o)))
    case Disconnects => if r.inbox.state == Disconnecting || r.inbox.state == Zombie then [] else Puts([Disconnect(0)])
  }

  function EventsOver(libs: Libraries, r: Remote, calls: seq<Call>): seq<QueueEvent>
    decreases |calls|
  {
    if calls == [] then [] else EventsOf(libs, r, calls[0]) + EventsOver(libs, React(libs, r, calls[0]).0, calls[1..])
  }

  lemma {:induction false} LifeInParts(
    libs: Libraries, config: Config, q: Queue, a: seq<QueueEvent>, b: seq<QueueEvent>)
    ensures QueueAfter(libs, config, q, a + b) == QueueAfter(libs, config, QueueAfter(libs, config, q, a), b)
    ensures SentOver(libs, config, q, a + b)
      == SentOver(libs, config, q, a) + SentOver(libs, config, QueueAfter(libs, config, q, a), b)
    decreases |a|
  {
    if a == [] {
      assert a + b == b;
      var sent := SentOver(libs, config, q, b);
      assert [] + sent == sent;
    } else {
      var next := QueueStep(libs, config, q, a[0]);
      assert (a + b)[0] == a[0] && (a + b)[1..] == a[1..] + b;
      LifeInParts(libs, config, next, a[1..], b);
      var x, y := Gives(libs, config, q, a[0]), SentOver(libs, config, next, a[1..]);
      var z := SentOver(libs, config, QueueAfter(libs, config, next, a[1..]), b);
      assert x + (y + z) == x + y + z;
    }
  }

  lemma {:induction false} ReadableInParts(
    libs: Libraries, config: Config, q: Queue, a: seq<QueueEvent>, b: seq<QueueEvent>)
    ensures LifeReadable(libs, config, q, a + b) <==>
      LifeReadable(libs, config, q, a) && LifeReadable(libs, config, QueueAfter(libs, config, q, a), b)
    decreases |a|
  {
    if a == [] {
      assert a + b == b;
    } else {
      assert (a + b)[0] == a[0] && (a + b)[1..] == a[1..] + b;
      ReadableInParts(libs, config, QueueStep(libs, config, q, a[0]), a[1..], b);
    }
  }

  lemma {:induction false} PutsEnqueue(libs: Libraries, config: Config, q: Queue, cs: seq<Command>)
    ensures QueueAfter(libs, config, q, Puts(cs)) == q.EnqueueAll(cs) && SentOver(libs, config, q, Puts(cs)) == []
    decreases |cs|
  {
    if cs != [] {
      PutsEnqueue(libs, config, q.Enqueue(cs[0]), cs[1..]);
      assert Puts(cs)[1..] == Puts(cs[1..]);
    }
  }

  lemma OneFlush(libs: Libraries, config: Config, q: Queue, cap: nat, t: Throttle)
    ensures QueueAfter(libs, config, q, [Flushes(cap, t)]) == FlushAll(libs, config, cap, q, t).queue
    ensures SentOver(libs, config, q, [Flushes(cap, t)]) == FlushAll(libs, config, cap, q, t).sent
  {
    assert [Flushes(cap, t)][1..] == [];
  }

  lemma {:induction false} RepliesAreQueued(i: ValidInbox, o: Outbox, steps: seq<Step>)
    ensures OutboxAfterAll(i, o, steps).queue == o.queue.EnqueueAll(RepliesOver(i, steps))
    decreases |steps|
  {
    if steps != [] {
      var c, s := steps[0].command, steps[0].around;
      var rest := if i.Rejects(c) then [] else RepliesOver(Next(i, steps[0]), steps[1..]);
      EnqueueAllInParts(o.queue, i.Replies(c, s), rest);
      if !i.Rejects(c) {
        RepliesAreQueued(Next(i, steps[0]), o.After(i, c, s), steps[1..]);
      }
    }
  }

  /** The events of a call lead the queue to where the call leaves it, and give what the call sends. */
  ghost predicate IsLife(libs: Libraries, r: Remote, events: seq<QueueEvent>, after: Remote, actions: seq<Action>) {
    && QueueAfter(libs, r.inbox.config, r.outbox.queue, events) == after.outbox.queue
    && SentOver(libs, r.inbox.config, r.outbox.queue, events) == Datagrams(actions)
  }

  ghost predicate CallIsLife(libs: Libraries, r: Remote, c: Call) {
    IsLife(libs, r, EventsOf(libs, r, c), React(libs, r, c).0, React(libs, r, c).1)
  }

  lemma ReceiveIsLife(libs: Libraries, r: Remote, payload: bytes, s: Surroundings)
    ensures CallIsLife(libs, r, Receives(payload, s))
  {
    ReceiveTransmitsNothing(libs, r, payload, s);
    if LetsIn(r, payload, s.time) {
      var steps := StepsIn(libs, r.inbox.config, Arrival(payload, s));
      var t := r.outbox.throttle.UpdateWindow(s.time).RecordReceived(Low32(|payload|));
      RepliesAreQueued(r.inbox, r.outbox.(throttle := t), steps);
      PutsEnqueue(libs, r.inbox.config, r.outbox.queue, RepliesOver(r.inbox, steps));
    }
  }

  lemma SendIsLife(libs: Libraries, r: Remote, p: Packet, at: Instant)
    ensures CallIsLife(libs, r, Sends(p, at))
  {
    var cs := r.inbox.Greeting() + r.CommandsFor(p);
    var q := r.outbox.queue.EnqueueAll(cs);
    SendDatagrams(libs, r, p, at);
    PutsEnqueue(libs, r.inbox.config, r.outbox.queue, cs);
    OneFlush(libs, r.inbox.config, q, Most(r), r.outbox.throttle);
    LifeInParts(libs, r.inbox.config, r.outbox.queue, Puts(cs), [Flushes(Most(r), r.outbox.throttle)]);
    var sent := FlushAll(libs, r.inbox.config, Most(r), q, r.outbox.throttle).sent;
    assert [] + sent == sent;
  }

  lemma UpdateIsLife(libs: Libraries, r: Remote, time: Instant, o: Outside)
    ensures CallIsLife(libs, r, Updates(time, o))
  {
    var config, t := r.inbox.config, r.outbox.throttle.UpdateWindow(time);
    var q := r.outbox.queue.EnqueueAll(Heartbeat(r, time, o));
    var f := FlushAll(libs, config, Most(r), q, t);
    UpdateDatagrams(libs, r, time, o);
    PutsEnqueue(libs, config, r.outbox.queue, Heartbeat(r, time, o));
    OneFlush(libs, config, q, Most(r), t);
    PutsEnqueue(libs, config, f.queue, Probing(r, time, o));
    LifeInParts(libs, config, q, [Flushes(Most(r), t)], Puts(Probing(r, time, o)));
    LifeInParts(
      libs, config, r.outbox.queue, Puts(Heartbeat(r, time, o)), [Flushes(Most(r), t)] + Puts(Probing(r, time, o)));
    assert [] + (f.sent + []) == f.sent;
  }

  lemma DisconnectIsLife(libs: Libraries, r: Remote)
    ensures CallIsLife(libs, r, Disconnects)
  {
    PutsEnqueue(libs, r.inbox.config, r.outbox.queue, [Disconnect(0)]);
  }

  lemma {:induction false} CallsAreLife(libs: Libraries, r: Remote, calls: seq<Call>)
    ensures IsLife(libs, r, EventsOver(libs, r, calls), AfterCalls(libs, r, calls), ActionsOf(libs, r, calls))
    decreases |calls|
  {
    if calls != [] {
      var c, next := calls[0], React(libs, r, calls[0]).0;
      match c {
        case Receives(payload, s) => ReceiveIsLife(libs, r, payload, s);
        case Sends(p, at) => SendIsLife(libs, r, p, at);
        case Updates(time, o) => UpdateIsLife(libs, r, time, o);
        case Disconnects => DisconnectIsLife(libs, r);
      }
      CallGoesForward(libs, r, c);
      CallsAreLife(libs, next, calls[1..]);
      LifeInParts(
        libs, r.inbox.config, r.outbox.queue, EventsOf(libs, r, c), EventsOver(libs, next, calls[1..]));
      DatagramsInParts(React(libs, r, c).1, ActionsOf(libs, next, calls[1..]));
    }
  }

  /** The commands that a run of calls queues and that are not dropped at the limit. */
  function Accepted(libs: Libraries, r: Remote, calls: seq<Call>): seq<Command> {
    AcceptedOver(libs, r.inbox.config, r.outbox.queue, EventsOver(libs, r, calls))
  }

  /** Each datagram of the run can be encoded and holds at most 255 commands within their length fields. */
  predicate AllReadable(libs: Libraries, r: Remote, calls: seq<Call>) {
    LifeReadable(libs, r.inbox.config, r.outbox.queue, EventsOver(libs, r, calls))
  }

  /** Over every run of calls, first in, first out: what a receiver reads from all datagrams that the peer wants sent ++
      what waits then == what waited before ++ what was accepted, exactly when each datagram is readable. */
  lemma CallsConserveIff(libs: Libraries, r: Remote, calls: seq<Call>)
    requires r.Valid() && libs.Faithful()
    ensures
      var received := ReadAll(libs, r.inbox.config, Datagrams(ActionsOf(libs, r, calls)));
      var waiting := AfterCalls(libs, r, calls).outbox.queue.commands;
      var all := r.outbox.queue.commands + Accepted(libs, r, calls);
      Balances(received, waiting, all) <==> AllReadable(libs, r, calls)
  {
    CallsAreLife(libs, r, calls);
    QueueConservesIff(libs, r.inbox.config, r.outbox.queue, EventsOver(libs, r, calls));
  }
}

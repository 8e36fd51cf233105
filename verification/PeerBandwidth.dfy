/** The bandwidth of a peer over runs of calls, in both directions. */
module PeerBandwidth {
  import opened Numbers
  import opened Clock
  import opened Command
  import opened Framing
  import opened Config
  import opened Flush
  import opened Bandwidth
  import opened Processor
  import opened PeerSessions
  import B = Bandwidth

  /** The datagrams that a call wants sent. */
  function Datagrams(actions: seq<Action>): seq<bytes> {
    if actions == [] then []
    else (if actions[0].Transmit? then [actions[0].datagram] else []) + Datagrams(actions[1..])
  }

  function TotalBytes(datagrams: seq<bytes>): nat {
    if datagrams == [] then 0 else |datagrams[0]| + TotalBytes(datagrams[1..])
  }

  lemma {:induction false} DatagramsInParts(a: seq<Action>, b: seq<Action>)
    ensures Datagrams(a + b) == Datagrams(a) + Datagrams(b)
  {
    if a == [] {
      assert a + b == b;
    } else {
      assert (a + b)[1..] == a[1..] + b;
      DatagramsInParts(a[1..], b);
    }
  }

  lemma {:induction false} TotalBytesInParts(a: seq<bytes>, b: seq<bytes>)
    ensures TotalBytes(a + b) == TotalBytes(a) + TotalBytes(b)
  {
    if a == [] {
      assert a + b == b;
    } else {
      assert (a + b)[1..] == a[1..] + b;
      TotalBytesInParts(a[1..], b);
    }
  }

  lemma {:induction false} DatagramsOfTransmits(datagrams: seq<bytes>)
    ensures Datagrams(Transmits(datagrams)) == datagrams
  {
    if datagrams != [] {
      assert Transmits(datagrams)[1..] == Transmits(datagrams[1..]);
      DatagramsOfTransmits(datagrams[1..]);
    }
  }

  lemma {:induction false} NoDatagrams(actions: seq<Action>)
    requires forall i :: 0 <= i < |actions| ==> !actions[i].Transmit?
    ensures Datagrams(actions) == []
  {
    if actions != [] {
      NoDatagrams(actions[1..]);
    }
  }

  lemma {:induction false} PassesTotal(at: Instant, datagrams: seq<bytes>)
    requires AllWithin(datagrams, 0xFFFF_FFFF)
    ensures Total(Passes(at, datagrams)) == TotalBytes(datagrams)
  {
    if datagrams != [] {
      PassesTotal(at, datagrams[1..]);
      var e, rest := Pass(at, Low32(|datagrams[0]|)), Passes(at, datagrams[1..]);
      assert ([e] + rest)[1..] == rest;
    }
  }

  /** What a packet's commands do to the throttle: they may change its limits, and nothing else. */
  lemma {:induction false} PacketKeepsCounters(i: ValidInbox, o: Outbox, steps: seq<Step>)
    ensures
      var t := OutboxAfterAll(i, o, steps).throttle;
      t == o.throttle.(outgoingLimit := t.outgoingLimit, incomingLimit := t.incomingLimit)
    decreases |steps|
  {
    if steps != [] && !i.Rejects(steps[0].command) {
      PacketKeepsCounters(Next(i, steps[0]), o.After(i, steps[0].command, steps[0].around), steps[1..]);
    }
  }

  // ----- the two directions -----

  /** What a call does to the outgoing side, in order. */
  function OutEvents(libs: Libraries, r: Remote, c: Call): seq<Event> {
    var (after, actions) := React(libs, r, c);
    match c
    case Receives(payload, s) =>
      if payload == [] then [] else [Check(s.time)] + [Limit(s.time, after.outbox.throttle.outgoingLimit)]
    case Sends(_, at) => Passes(at, Datagrams(actions))
    case Updates(time, _) => [Check(time)] + Passes(time, Datagrams(actions))
    case Disconnects => []
  }

  /** The bandwidth limit lets a datagram in. */
  predicate LetsIn(r: Remote, payload: bytes, time: Instant) {
    payload != [] && r.outbox.throttle.UpdateWindow(time).CanReceive()
  }

  /** What a call does to the incoming side. */
  function InEvents(libs: Libraries, r: Remote, c: Call): seq<Event> {
    match c
    case Receives(payload, s) =>
      if payload == [] then []
      else if !LetsIn(r, payload, s.time) then [Check(s.time)] + []
      else
        var after := React(libs, r, c).0.outbox.throttle;
        [Check(s.time)] + ([Pass(s.time, Low32(|payload|))] + [Limit(s.time, after.incomingLimit)])
    case Updates(time, _) => [Check(time)] + []
    case _ => []
  }

  /** The peer's receive buffer bounds all datagrams, both ways. */
  predicate Possible(r: Remote, c: Call) {
    && r.inbox.config.receiveBufferMaxSize < 0x1_0000_0000
    && (c.Receives? ==> |c.payload| <= r.inbox.config.receiveBufferMaxSize)
  }

  predicate OutLimited(r: Remote, top: u32) { 0 < r.outbox.throttle.outgoingLimit <= top }

  predicate InLimited(r: Remote, top: u32) { 0 < r.outbox.throttle.incomingLimit <= top }

  lemma ReceivedThrottle(libs: Libraries, r: Remote, payload: bytes, s: Surroundings)
    requires payload != []
    ensures
      var t := r.outbox.throttle.UpdateWindow(s.time);
      var u := r.Receive(libs, payload, s).0.outbox.throttle;
      if LetsIn(r, payload, s.time) then
        u == t.RecordReceived(Low32(|payload|)).(outgoingLimit := u.outgoingLimit, incomingLimit := u.incomingLimit)
      else u == t
  {
    var t := r.outbox.throttle.UpdateWindow(s.time);
    PacketKeepsCounters(
      r.inbox, r.outbox.(throttle := t.RecordReceived(Low32(|payload|))),
      StepsIn(libs, r.inbox.config, Arrival(payload, s)));
  }

  lemma ReceiveTransmitsNothing(libs: Libraries, r: Remote, payload: bytes, s: Surroundings)
    ensures Datagrams(r.Receive(libs, payload, s).1) == []
  {
    NoDatagrams(r.Receive(libs, payload, s).1);
  }

  lemma SingleEvent(m: Meter, e: Event, cap: nat, top: u32)
    requires !e.Pass?
    ensures Guarded(m, [e], cap, top) && Run(m, [e]) == B.Step(m, e) && Total([e]) == 0
  {
    assert [e] == [e] + [];
    FirstEvent(m, e, [], cap, top);
  }

  /** A flush as the calls do it. */
  lemma FlushesAreGuarded(libs: Libraries, r: Remote, at: Instant, top: u32)
    requires r.Valid() && r.inbox.config.receiveBufferMaxSize < 0x1_0000_0000 && OutLimited(r, top)
    ensures
      var (after, sent) := r.Flushes(libs);
      && Guarded(OutMeter(r.outbox.throttle), Passes(at, sent), r.inbox.config.receiveBufferMaxSize, top)
      && Run(OutMeter(r.outbox.throttle), Passes(at, sent)) == OutMeter(after.outbox.throttle)
      && Total(Passes(at, sent)) == TotalBytes(sent)
  {
    FlushIsGuarded(libs, r.inbox.config, r.Cap(), r.outbox.queue, r.outbox.throttle, at, top);
    PassesTotal(at, r.Flushes(libs).1);
  }

  lemma FlushesLeaveIncoming(libs: Libraries, r: Remote)
    ensures InMeter(r.Flushes(libs).0.outbox.throttle) == InMeter(r.outbox.throttle)
  {
    FlushOnlySends(libs, r.inbox.config, r.Cap(), r.outbox.queue, r.outbox.throttle);
  }

  /** What a call does to one side is guarded, leads the meter to where the call leaves it, and counts `bytes`. */
  predicate Accounts(m: Meter, events: seq<Event>, after: Meter, bytes: nat, cap: nat, top: u32) {
    Guarded(m, events, cap, top) && Run(m, events) == after && Total(events) == bytes
  }

  /** What a call has the peer send. */
  function BytesOut(libs: Libraries, r: Remote, c: Call): nat { TotalBytes(Datagrams(React(libs, r, c).1)) }

  /** What a call lets in. */
  function BytesIn(r: Remote, c: Call): nat {
    if c.Receives? && LetsIn(r, c.payload, c.around.time) then |c.payload| else 0
  }

  predicate OutAccounts(libs: Libraries, r: Remote, c: Call, top: u32) {
    Accounts(OutMeter(r.outbox.throttle), OutEvents(libs, r, c), OutMeter(React(libs, r, c).0.outbox.throttle),
             BytesOut(libs, r, c), r.inbox.config.receiveBufferMaxSize, top)
  }

  predicate InAccounts(libs: Libraries, r: Remote, c: Call, top: u32) {
    Accounts(InMeter(r.outbox.throttle), InEvents(libs, r, c), InMeter(React(libs, r, c).0.outbox.throttle),
             BytesIn(r, c), r.inbox.config.receiveBufferMaxSize, top)
  }

  lemma SendTransmits(libs: Libraries, r: Remote, p: Packet)
    ensures r.Send(libs, p).1 == Transmits(r.Prepared(p).Flushes(libs).1)
  {
    SendGoesForward(libs, r, p);
    var sent := r.Prepared(p).Flushes(libs).1;
    assert [] + Transmits(sent) == Transmits(sent);
  }

  lemma SendAccounts(libs: Libraries, r: Remote, p: Packet, at: Instant, top: u32)
    requires r.Valid() && r.inbox.config.receiveBufferMaxSize < 0x1_0000_0000 && OutLimited(r, top)
    ensures OutAccounts(libs, r, Sends(p, at), top)
  {
    PreparedIsValid(r, p);
    FlushesAreGuarded(libs, r.Prepared(p), at, top);
    SendTransmits(libs, r, p);
    DatagramsOfTransmits(r.Prepared(p).Flushes(libs).1);
  }

  lemma UpdateAccounts(libs: Libraries, r: Remote, time: Instant, o: Outside, top: u32)
    requires r.Valid() && r.inbox.config.receiveBufferMaxSize < 0x1_0000_0000 && OutLimited(r, top)
    ensures OutAccounts(libs, r, Updates(time, o), top)
  {
    CheckedIsValid(r, time, o);
    var queued := r.Checked(time, o);
    FlushesAreGuarded(libs, queued, time, top);
    var sent := queued.Flushes(libs).1;
    DatagramsOfTransmits(sent);
    FirstEvent(OutMeter(r.outbox.throttle), Check(time), Passes(time, sent), r.inbox.config.receiveBufferMaxSize, top);
  }

  lemma CheckThenLimit(m: Meter, at: Instant, limit: u32, cap: nat, top: u32)
    ensures Accounts(m, [Check(at)] + [], B.Step(m, Check(at)), 0, cap, top)
    ensures Accounts(m, [Check(at)] + [Limit(at, limit)], B.Step(m, Check(at)).(limit := limit), 0, cap, top)
  {
    SingleEvent(B.Step(m, Check(at)), Limit(at, limit), cap, top);
    FirstEvent(m, Check(at), [Limit(at, limit)], cap, top);
    FirstEvent(m, Check(at), [], cap, top);
  }

  lemma CheckPassLimit(m: Meter, at: Instant, size: u32, limit: u32, cap: nat, top: u32)
    requires B.Step(m, Check(at)).Open() && 0 < m.limit <= top && size <= cap
    ensures
      Accounts(m, [Check(at)] + ([Pass(at, size)] + [Limit(at, limit)]),
               B.Step(B.Step(m, Check(at)), Pass(at, size)).(limit := limit), size, cap, top)
  {
    var checked := B.Step(m, Check(at));
    SingleEvent(B.Step(checked, Pass(at, size)), Limit(at, limit), cap, top);
    FirstEvent(checked, Pass(at, size), [Limit(at, limit)], cap, top);
    FirstEvent(m, Check(at), [Pass(at, size)] + [Limit(at, limit)], cap, top);
  }

  lemma ReceiveAccountsOut(libs: Libraries, r: Remote, payload: bytes, s: Surroundings, top: u32)
    ensures OutAccounts(libs, r, Receives(payload, s), top)
  {
    ReceiveTransmitsNothing(libs, r, payload, s);
    if payload != [] {
      ReceivedThrottle(libs, r, payload, s);
      var u := r.Receive(libs, payload, s).0.outbox.throttle;
      CheckThenLimit(
        OutMeter(r.outbox.throttle), s.time, u.outgoingLimit, r.inbox.config.receiveBufferMaxSize, top);
    }
  }

  lemma LetsInAccounts(libs: Libraries, r: Remote, payload: bytes, s: Surroundings, top: u32)
    requires |payload| <= r.inbox.config.receiveBufferMaxSize < 0x1_0000_0000 && InLimited(r, top)
    requires LetsIn(r, payload, s.time)
    ensures InAccounts(libs, r, Receives(payload, s), top)
  {
    ReceivedThrottle(libs, r, payload, s);
    var u, cap := r.Receive(libs, payload, s).0.outbox.throttle, r.inbox.config.receiveBufferMaxSize;
    assert Low32(|payload|) == |payload|;
    CheckPassLimit(InMeter(r.outbox.throttle), s.time, |payload|, u.incomingLimit, cap, top);
  }

  lemma TurnsAwayAccounts(libs: Libraries, r: Remote, payload: bytes, s: Surroundings, top: u32)
    requires !LetsIn(r, payload, s.time)
    ensures InAccounts(libs, r, Receives(payload, s), top)
  {
    if payload != [] {
      ReceivedThrottle(libs, r, payload, s);
      CheckThenLimit(InMeter(r.outbox.throttle), s.time, 0, r.inbox.config.receiveBufferMaxSize, top);
    }
  }

  lemma ReceiveAccountsIn(libs: Libraries, r: Remote, payload: bytes, s: Surroundings, top: u32)
    requires |payload| <= r.inbox.config.receiveBufferMaxSize < 0x1_0000_0000 && InLimited(r, top)
    ensures InAccounts(libs, r, Receives(payload, s), top)
  {
    if LetsIn(r, payload, s.time) {
      LetsInAccounts(libs, r, payload, s, top);
    } else {
      TurnsAwayAccounts(libs, r, payload, s, top);
    }
  }

  lemma OutStepAccounts(libs: Libraries, r: Remote, c: Call, top: u32)
    requires r.Valid() && Possible(r, c) && OutLimited(r, top)
    ensures OutAccounts(libs, r, c, top)
  {
    match c {
      case Receives(payload, s) => ReceiveAccountsOut(libs, r, payload, s, top);
      case Sends(p, at) => SendAccounts(libs, r, p, at, top);
      case Updates(time, o) => UpdateAccounts(libs, r, time, o, top);
      case Disconnects =>
    }
  }

  lemma InStepAccounts(libs: Libraries, r: Remote, c: Call, top: u32)
    requires Possible(r, c) && InLimited(r, top)
    ensures InAccounts(libs, r, c, top)
  {
    match c {
      case Receives(payload, s) => ReceiveAccountsIn(libs, r, payload, s, top);
      case Sends(p, _) =>
        FlushesLeaveIncoming(libs, r.Prepared(p));
      case Updates(time, o) =>
        FlushesLeaveIncoming(libs, r.Checked(time, o));
        CheckThenLimit(InMeter(r.outbox.throttle), time, 0, r.inbox.config.receiveBufferMaxSize, top);
      case Disconnects =>
    }
  }

  // ----- runs of calls -----

  function OutTrace(libs: Libraries, r: Remote, calls: seq<Call>): seq<Event>
    decreases |calls|
  {
    if calls == [] then []
    else OutEvents(libs, r, calls[0]) + OutTrace(libs, React(libs, r, calls[0]).0, calls[1..])
  }

  function InTrace(libs: Libraries, r: Remote, calls: seq<Call>): seq<Event>
    decreases |calls|
  {
    if calls == [] then []
    else InEvents(libs, r, calls[0]) + InTrace(libs, React(libs, r, calls[0]).0, calls[1..])
  }

  /** All bytes that a run lets in. */
  function AllBytesIn(libs: Libraries, r: Remote, calls: seq<Call>): nat
    decreases |calls|
  {
    if calls == [] then 0 else BytesIn(r, calls[0]) + AllBytesIn(libs, React(libs, r, calls[0]).0, calls[1..])
  }

  /** At every call the peer may have received what it is given, and its outgoing limit is set and at most `top`. */
  predicate OutAllowed(libs: Libraries, r: Remote, calls: seq<Call>, top: u32)
    decreases |calls|
  {
    calls == []
    || (Possible(r, calls[0]) && OutLimited(r, top) && OutAllowed(libs, React(libs, r, calls[0]).0, calls[1..], top))
  }

  predicate InAllowed(libs: Libraries, r: Remote, calls: seq<Call>, top: u32)
    decreases |calls|
  {
    calls == []
    || (Possible(r, calls[0]) && InLimited(r, top) && InAllowed(libs, React(libs, r, calls[0]).0, calls[1..], top))
  }

  lemma AccountsTogether(
    m: Meter, first: seq<Event>, mid: Meter, a: nat, rest: seq<Event>, after: Meter, b: nat, cap: nat, top: u32)
    requires Accounts(m, first, mid, a, cap, top) && Accounts(mid, rest, after, b, cap, top)
    ensures Accounts(m, first + rest, after, a + b, cap, top)
  {
    GuardedInParts(m, first, rest, cap, top);
    TotalInParts(first, rest);
  }

  predicate RunAccounts(libs: Libraries, r: Remote, calls: seq<Call>, top: u32) {
    Accounts(OutMeter(r.outbox.throttle), OutTrace(libs, r, calls),
             OutMeter(AfterCalls(libs, r, calls).outbox.throttle),
             TotalBytes(Datagrams(ActionsOf(libs, r, calls))), r.inbox.config.receiveBufferMaxSize, top)
  }

  predicate RunAccountsIn(libs: Libraries, r: Remote, calls: seq<Call>, top: u32) {
    Accounts(InMeter(r.outbox.throttle), InTrace(libs, r, calls), InMeter(AfterCalls(libs, r, calls).outbox.throttle),
             AllBytesIn(libs, r, calls), r.inbox.config.receiveBufferMaxSize, top)
  }

  lemma {:induction false} OutRunAccounts(libs: Libraries, r: Remote, calls: seq<Call>, top: u32)
    requires r.Valid() && OutAllowed(libs, r, calls, top)
    ensures RunAccounts(libs, r, calls, top)
    decreases |calls|
  {
    if calls != [] {
      var c, next := calls[0], React(libs, r, calls[0]).0;
      OutStepAccounts(libs, r, c, top);
      CallGoesForward(libs, r, c);
      CallKeepsValid(libs, r, c);
      OutRunAccounts(libs, next, calls[1..], top);
      var actions, more := React(libs, r, c).1, ActionsOf(libs, next, calls[1..]);
      DatagramsInParts(actions, more);
      TotalBytesInParts(Datagrams(actions), Datagrams(more));
      AccountsTogether(
        OutMeter(r.outbox.throttle), OutEvents(libs, r, c), OutMeter(next.outbox.throttle), BytesOut(libs, r, c),
        OutTrace(libs, next, calls[1..]), OutMeter(AfterCalls(libs, r, calls).outbox.throttle),
        TotalBytes(Datagrams(more)), r.inbox.config.receiveBufferMaxSize, top);
    }
  }

  lemma {:induction false} InRunAccounts(libs: Libraries, r: Remote, calls: seq<Call>, top: u32)
    requires InAllowed(libs, r, calls, top)
    ensures RunAccountsIn(libs, r, calls, top)
    decreases |calls|
  {
    if calls != [] {
      var c, next := calls[0], React(libs, r, calls[0]).0;
      InStepAccounts(libs, r, c, top);
      CallGoesForward(libs, r, c);
      InRunAccounts(libs, next, calls[1..], top);
      AccountsTogether(
        InMeter(r.outbox.throttle), InEvents(libs, r, c), InMeter(next.outbox.throttle), BytesIn(r, c),
        InTrace(libs, next, calls[1..]), InMeter(AfterCalls(libs, r, calls).outbox.throttle),
        AllBytesIn(libs, next, calls[1..]), r.inbox.config.receiveBufferMaxSize, top);
    }
  }

  // ----- the bounds -----

  /** All calls that look at the time, or stand at one, do so from `from` on and before `end`. */
  predicate Between(calls: seq<Call>, from: Instant, end: Instant) {
    forall i :: 0 <= i < |calls| ==> IsBetween(calls[i], from, end)
  }

  predicate IsBetween(c: Call, from: Instant, end: Instant) {
    match c
    case Receives(_, s) => from <= s.time < end
    case Sends(_, at) => from <= at < end
    case Updates(time, _) => from <= time < end
    case Disconnects => true
  }

  lemma {:induction false} PassesWithin(at: Instant, datagrams: seq<bytes>, from: Instant, end: Instant)
    requires from <= at < end
    ensures Within(Passes(at, datagrams), from, end)
  {
    if datagrams != [] {
      PassesWithin(at, datagrams[1..], from, end);
    }
  }

  lemma WithinTogether(a: seq<Event>, b: seq<Event>, from: Instant, end: Instant)
    requires Within(a, from, end) && Within(b, from, end)
    ensures Within(a + b, from, end)
  {
  }

  lemma OutEventsWithin(libs: Libraries, r: Remote, c: Call, from: Instant, end: Instant)
    requires IsBetween(c, from, end)
    ensures Within(OutEvents(libs, r, c), from, end)
  {
    var datagrams := Datagrams(React(libs, r, c).1);
    if c.Sends? {
      PassesWithin(c.at, datagrams, from, end);
    } else if c.Updates? {
      PassesWithin(c.time, datagrams, from, end);
      WithinTogether([Check(c.time)], Passes(c.time, datagrams), from, end);
    }
  }

  lemma InEventsWithin(libs: Libraries, r: Remote, c: Call, from: Instant, end: Instant)
    requires IsBetween(c, from, end)
    ensures Within(InEvents(libs, r, c), from, end)
  {
  }

  lemma {:induction false} TracesWithin(libs: Libraries, r: Remote, calls: seq<Call>, from: Instant, end: Instant)
    requires Between(calls, from, end)
    ensures Within(OutTrace(libs, r, calls), from, end) && Within(InTrace(libs, r, calls), from, end)
    decreases |calls|
  {
    if calls != [] {
      var next := React(libs, r, calls[0]).0;
      OutEventsWithin(libs, r, calls[0], from, end);
      InEventsWithin(libs, r, calls[0], from, end);
      TracesWithin(libs, next, calls[1..], from, end);
      WithinTogether(OutEvents(libs, r, calls[0]), OutTrace(libs, next, calls[1..]), from, end);
      WithinTogether(InEvents(libs, r, calls[0]), InTrace(libs, next, calls[1..]), from, end);
    }
  }

  /** Over every run of calls, whatever comes in and whatever limits the other side sets up to `top`, no second sees
      more sent than twice `top - 1` and a receive buffer. */
  lemma SentInASecond(
    libs: Libraries, r: Remote, before: seq<Call>, during: seq<Call>, from: Instant, top: u32)
    requires r.Valid() && r.outbox.throttle.sent == 0 && 0 < top && Between(during, from, from + SECOND)
    requires OutAllowed(libs, r, before, top) && OutAllowed(libs, AfterCalls(libs, r, before), during, top)
    ensures TotalBytes(Datagrams(ActionsOf(libs, AfterCalls(libs, r, before), during)))
      <= 2 * (top - 1 + r.inbox.config.receiveBufferMaxSize)
  {
    var mid, cap := AfterCalls(libs, r, before), r.inbox.config.receiveBufferMaxSize;
    PeerGoesForward(libs, r, before);
    CallsKeepValid(libs, r, before);
    OutRunAccounts(libs, r, before, top);
    OutRunAccounts(libs, mid, during, top);
    TracesWithin(libs, mid, during, from, from + SECOND);
    var first, rest := OutTrace(libs, r, before), OutTrace(libs, mid, during);
    GuardedInParts(OutMeter(r.outbox.throttle), first, rest, cap, top);
    SecondBound(OutMeter(r.outbox.throttle), first, rest, cap, top, from);
  }

  /** The same for what is let in. */
  lemma ReceivedInASecond(
    libs: Libraries, r: Remote, before: seq<Call>, during: seq<Call>, from: Instant, top: u32)
    requires r.outbox.throttle.received == 0 && 0 < top && Between(during, from, from + SECOND)
    requires InAllowed(libs, r, before, top) && InAllowed(libs, AfterCalls(libs, r, before), during, top)
    ensures AllBytesIn(libs, AfterCalls(libs, r, before), during)
      <= 2 * (top - 1 + r.inbox.config.receiveBufferMaxSize)
  {
    var mid, cap := AfterCalls(libs, r, before), r.inbox.config.receiveBufferMaxSize;
    PeerGoesForward(libs, r, before);
    InRunAccounts(libs, r, before, top);
    InRunAccounts(libs, mid, during, top);
    TracesWithin(libs, mid, during, from, from + SECOND);
    var first, rest := InTrace(libs, r, before), InTrace(libs, mid, during);
    GuardedInParts(InMeter(r.outbox.throttle), first, rest, cap, top);
    SecondBound(InMeter(r.outbox.throttle), first, rest, cap, top, from);
  }

  /** And since its window began a peer has sent, and let in, at most `top - 1` bytes and one receive buffer. */
  lemma WindowsAreBounded(libs: Libraries, r: Remote, calls: seq<Call>, top: u32)
    requires r.Valid() && 0 < top
    ensures
      r.outbox.throttle.sent == 0 && OutAllowed(libs, r, calls, top) ==>
        InWindow(OutMeter(r.outbox.throttle), 0, OutTrace(libs, r, calls))
          <= top - 1 + r.inbox.config.receiveBufferMaxSize
    ensures
      r.outbox.throttle.received == 0 && InAllowed(libs, r, calls, top) ==>
        InWindow(InMeter(r.outbox.throttle), 0, InTrace(libs, r, calls))
          <= top - 1 + r.inbox.config.receiveBufferMaxSize
  {
    var cap := r.inbox.config.receiveBufferMaxSize;
    if r.outbox.throttle.sent == 0 && OutAllowed(libs, r, calls, top) {
      OutRunAccounts(libs, r, calls, top);
      WindowBound(OutMeter(r.outbox.throttle), 0, OutTrace(libs, r, calls), cap, top);
    }
    if r.outbox.throttle.received == 0 && InAllowed(libs, r, calls, top) {
      InRunAccounts(libs, r, calls, top);
      WindowBound(InMeter(r.outbox.throttle), 0, InTrace(libs, r, calls), cap, top);
    }
  }

  // ----- when the checks are open -----

  lemma RunInTwo(m: Meter, a: seq<Event>, b: seq<Event>)
    ensures Run(m, a + b) == Run(Run(m, a), b)
  {
    GuardedInParts(m, a, b, 0, 0);
  }

  lemma CheckThen(m: Meter, at: Instant, rest: seq<Event>)
    ensures Run(m, [Check(at)] + rest) == Run(B.Step(m, Check(at)), rest)
  {
    FirstEvent(m, Check(at), rest, 0, 0);
  }

  lemma SendMeters(libs: Libraries, r: Remote, p: Packet, at: Instant)
    ensures Run(OutMeter(r.outbox.throttle), OutEvents(libs, r, Sends(p, at)))
      == OutMeter(React(libs, r, Sends(p, at)).0.outbox.throttle)
  {
    SendTransmits(libs, r, p);
    DatagramsOfTransmits(r.Prepared(p).Flushes(libs).1);
    FlushesMeter(libs, r.Prepared(p), at);
  }

  lemma FlushesMeter(libs: Libraries, r: Remote, at: Instant)
    ensures Run(OutMeter(r.outbox.throttle), Passes(at, r.Flushes(libs).1))
      == OutMeter(r.Flushes(libs).0.outbox.throttle)
  {
    FlushMeters(libs, r.inbox.config, r.Cap(), r.outbox.queue, r.outbox.throttle, at);
  }

  lemma UpdateMeters(libs: Libraries, r: Remote, time: Instant, o: Outside)
    ensures Run(OutMeter(r.outbox.throttle), OutEvents(libs, r, Updates(time, o)))
      == OutMeter(React(libs, r, Updates(time, o)).0.outbox.throttle)
  {
    var checked := r.Checked(time, o);
    DatagramsOfTransmits(checked.Flushes(libs).1);
    FlushesMeter(libs, checked, time);
    CheckThen(OutMeter(r.outbox.throttle), time, Passes(time, checked.Flushes(libs).1));
  }

  lemma OutCallMeters(libs: Libraries, r: Remote, c: Call)
    ensures Run(OutMeter(r.outbox.throttle), OutEvents(libs, r, c)) == OutMeter(React(libs, r, c).0.outbox.throttle)
  {
    match c {
      case Receives(payload, s) => ReceiveAccountsOut(libs, r, payload, s, 0);
      case Sends(p, at) => SendMeters(libs, r, p, at);
      case Updates(time, o) => UpdateMeters(libs, r, time, o);
      case Disconnects =>
    }
  }

  lemma CheckPassThenLimit(m: Meter, at: Instant, size: u32, limit: u32)
    ensures Run(m, [Check(at)] + ([Pass(at, size)] + [Limit(at, limit)]))
      == B.Step(B.Step(m, Check(at)), Pass(at, size)).(limit := limit)
  {
    var checked := B.Step(m, Check(at));
    SingleEvent(B.Step(checked, Pass(at, size)), Limit(at, limit), 0, 0);
    FirstEvent(checked, Pass(at, size), [Limit(at, limit)], 0, 0);
    CheckThen(m, at, [Pass(at, size)] + [Limit(at, limit)]);
  }

  lemma ReceiveMetersIn(libs: Libraries, r: Remote, payload: bytes, s: Surroundings)
    ensures Run(InMeter(r.outbox.throttle), InEvents(libs, r, Receives(payload, s)))
      == InMeter(React(libs, r, Receives(payload, s)).0.outbox.throttle)
  {
    if LetsIn(r, payload, s.time) {
      ReceivedThrottle(libs, r, payload, s);
      var u := r.Receive(libs, payload, s).0.outbox.throttle;
      CheckPassThenLimit(InMeter(r.outbox.throttle), s.time, Low32(|payload|), u.incomingLimit);
    } else {
      TurnsAwayAccounts(libs, r, payload, s, 0);
    }
  }

  lemma InCallMeters(libs: Libraries, r: Remote, c: Call)
    ensures Run(InMeter(r.outbox.throttle), InEvents(libs, r, c)) == InMeter(React(libs, r, c).0.outbox.throttle)
  {
    match c {
      case Receives(payload, s) => ReceiveMetersIn(libs, r, payload, s);
      case Sends(p, _) => FlushesLeaveIncoming(libs, r.Prepared(p));
      case Updates(time, o) =>
        FlushesLeaveIncoming(libs, r.Checked(time, o));
        CheckThen(InMeter(r.outbox.throttle), time, []);
      case Disconnects =>
    }
  }

  lemma {:induction false} RunMeters(libs: Libraries, r: Remote, calls: seq<Call>)
    ensures
      var after := AfterCalls(libs, r, calls).outbox.throttle;
      && Run(OutMeter(r.outbox.throttle), OutTrace(libs, r, calls)) == OutMeter(after)
      && Run(InMeter(r.outbox.throttle), InTrace(libs, r, calls)) == InMeter(after)
    decreases |calls|
  {
    if calls != [] {
      var c, next := calls[0], React(libs, r, calls[0]).0;
      OutCallMeters(libs, r, c);
      InCallMeters(libs, r, c);
      RunMeters(libs, next, calls[1..]);
      RunInTwo(OutMeter(r.outbox.throttle), OutEvents(libs, r, c), OutTrace(libs, next, calls[1..]));
      RunInTwo(InMeter(r.outbox.throttle), InEvents(libs, r, c), InTrace(libs, next, calls[1..]));
    }
  }

  /** After every run of calls a datagram is let in exactly as long as less than the limit was let in since the window
      began, a second after which it begins anew, or there is no limit. */
  lemma LetsInIff(libs: Libraries, r: Remote, calls: seq<Call>, payload: bytes, time: Instant)
    requires r.outbox.throttle.received == 0 && payload != []
    ensures
      var after := AfterCalls(libs, r, calls);
      var limit := after.outbox.throttle.incomingLimit;
      LetsIn(after, payload, time) <==>
        limit == 0 || InWindow(InMeter(r.outbox.throttle), 0, InTrace(libs, r, calls) + [Check(time)]) < limit
  {
    var m, trace := InMeter(r.outbox.throttle), InTrace(libs, r, calls);
    RunMeters(libs, r, calls);
    RunInTwo(m, trace, [Check(time)]);
    SingleEvent(Run(m, trace), Check(time), 0, 0);
    OpenIff(m, trace + [Check(time)]);
  }

  /** What is counted as sent is exactly what was sent since the window began, up to the counter's maximum. */
  lemma SentIsTrue(libs: Libraries, r: Remote, calls: seq<Call>)
    requires r.outbox.throttle.sent == 0
    ensures AfterCalls(libs, r, calls).outbox.throttle.sent
      == Min(InWindow(OutMeter(r.outbox.throttle), 0, OutTrace(libs, r, calls)), U32_MAX)
  {
    RunMeters(libs, r, calls);
    CountIsTrue(OutMeter(r.outbox.throttle), 0, OutTrace(libs, r, calls));
  }

  // ----- limits set from the other side -----

  /** The limits that a packet's commands set last. */
  function LimitsIn(i: ValidInbox, steps: seq<Step>, incoming: u32, outgoing: u32): (u32, u32)
    decreases |steps|
  {
    if steps == [] then (incoming, outgoing)
    else
      var c := steps[0].command;
      if c.BandwidthLimit? then LimitsIn(Next(i, steps[0]), steps[1..], c.incoming, c.outgoing)
      else if i.Rejects(c) then (incoming, outgoing)
      else LimitsIn(Next(i, steps[0]), steps[1..], incoming, outgoing)
  }

  /** The limits after a packet are those that it set last, each for its direction. */
  lemma {:induction false} LimitsAreTheLast(i: ValidInbox, o: Outbox, steps: seq<Step>)
    ensures
      var t := OutboxAfterAll(i, o, steps).throttle;
      (t.incomingLimit, t.outgoingLimit) == LimitsIn(i, steps, o.throttle.incomingLimit, o.throttle.outgoingLimit)
    decreases |steps|
  {
    if steps != [] && !i.Rejects(steps[0].command) {
      LimitsAreTheLast(Next(i, steps[0]), o.After(i, steps[0].command, steps[0].around), steps[1..]);
    }
  }
}

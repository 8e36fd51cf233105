/** A packet from one user to another: from the calls of the sending peer to the calls of the receiving one. */
module PeerDelivery {
  import opened Numbers
  import opened Clock
  import opened Command
  import opened Framing
  import opened Config
  import opened Queue
  import opened Packer
  import opened Fragmenter
  import opened QueueLife
  import opened Runs
  import opened Processor
  import opened Deliveries
  import opened EndToEnd
  import opened PeerSessions
  import opened PeerBandwidth
  import opened PeerSending
  import opened PeerReceiving
  import Acknowledgment

  predicate IsUnsequenced(p: Packet) { p.delivery.Unreliable? && p.ordering == Acknowledgment.Unsequenced }

  predicate IsInOrder(p: Packet) { p.delivery.Reliable? && p.ordering != Acknowledgment.Unordered }

  /** The number under which a packet is sent. */
  function NumberFor(r: Remote, p: Packet): u16 {
    if p.delivery.Reliable? then r.inbox.acks.sequenceNumber else r.nextUnreliable
  }

  function StyleFor(r: Remote, p: Packet): Style {
    if p.delivery.Reliable? then ReliableData(p.channelId, NumberFor(r, p), IsInOrder(p))
    else UnreliableData(p.channelId, NumberFor(r, p))
  }

  /** The step delivers the packet of a user: a reliable one that is not unordered is placed in its channel under its
      number, any other is handed up, its guarantee and its payload unchanged. */
  predicate ArrivesBy(p: Packet, number: u16, i: ValidInbox, step: Step) {
    if IsInOrder(p) then PlacedBy(i, step) == Some(Placed(p.channelId, number, p.data))
    else PlacedBy(i, step).None? && Out(i, step) == [p.(ordering := Acknowledgment.Unordered)]
  }

  /** At step `j` a piece delivers the packet, and no piece before it did anything. */
  predicate ArrivesAt(p: Packet, pieces: Sending, i: ValidInbox, steps: seq<Step>, j: nat)
    requires pieces.Valid()
  {
    && j < |steps| && pieces.IsPiece(steps[j].command)
    && ArrivesBy(p, pieces.style.number, After(i, steps[..j]), steps[j]) && SilentBefore(pieces, i, steps, j)
  }

  lemma CommandsForStyle(r: Remote, p: Packet)
    requires !IsUnsequenced(p)
    ensures r.CommandsFor(p) == StyleFor(r, p).Commands(r.inbox.config, Most(r), p.data)
    ensures forall i: ValidInbox, step: Step ::
      ArrivesBy(p, NumberFor(r, p), i, step) <==> Delivers(StyleFor(r, p), p.data, i, step)
  {
  }

  /** The queue events behind the packet: the flush of its own call, and what the later calls do. */
  function EventsBehind(libs: Libraries, r: Remote, p: Packet, at: Instant, calls: seq<Call>): seq<QueueEvent> {
    [Flushes(Most(r), r.outbox.throttle)] + EventsOver(libs, React(libs, r, Sends(p, at)).0, calls)
  }

  /** What the sending peer has had sent since, this call included. */
  function SentSince(libs: Libraries, r: Remote, p: Packet, at: Instant, calls: seq<Call>): seq<bytes> {
    Datagrams(ActionsOf(libs, r, [Sends(p, at)] + calls))
  }

  /** The sender: every datagram readable, the packet not dropped at the limit, no other fragments under its number. */
  ghost predicate SenderMay(libs: Libraries, r: Remote, p: Packet, at: Instant, calls: seq<Call>) {
    && r.Valid() && libs.Faithful() && !IsUnsequenced(p)
    && AllReadable(libs, r, [Sends(p, at)] + calls)
    && r.outbox.queue.AcceptsAll(r.CommandsFor(p))
    && NoneUnder(NumberFor(r, p), r.outbox.queue.commands)
    && NoneEnqueued(NumberFor(r, p), EventsOver(libs, React(libs, r, Sends(p, at)).0, calls))
  }

  /** The queue with the greeting, if this packet opens the handshake. */
  function Greeted(r: Remote): Queue { r.outbox.queue.EnqueueAll(r.inbox.Greeting()) }

  lemma GreetingFits(r: Remote, p: Packet)
    requires r.Valid() && r.outbox.queue.AcceptsAll(r.CommandsFor(p))
    requires NoneUnder(NumberFor(r, p), r.outbox.queue.commands)
    ensures Greeted(r).Valid() && Greeted(r).AcceptsAll(r.CommandsFor(p))
    ensures NoneUnder(NumberFor(r, p), Greeted(r).commands)
  {
    EnqueueAllKeepsValid(r.outbox.queue, r.inbox.Greeting());
    if r.inbox.Greeting() != [] {
      var c := r.inbox.Greeting()[0];
      assert r.inbox.Greeting() == [c] && [c][1..] == [];
    }
  }

  lemma BehindPuts(libs: Libraries, config: Config, q: Queue, cs: seq<Command>, rest: seq<QueueEvent>)
    ensures SentOver(libs, config, q, Puts(cs) + rest) == SentOver(libs, config, q.EnqueueAll(cs), rest)
    ensures LifeReadable(libs, config, q, Puts(cs) + rest) ==> LifeReadable(libs, config, q.EnqueueAll(cs), rest)
  {
    PutsEnqueue(libs, config, q, cs);
    LifeInParts(libs, config, q, Puts(cs), rest);
    ReadableInParts(libs, config, q, Puts(cs), rest);
    var sent := SentOver(libs, config, q.EnqueueAll(cs), rest);
    assert [] + sent == sent;
  }

  lemma FirstEvents(libs: Libraries, r: Remote, c: Call, calls: seq<Call>)
    ensures EventsOver(libs, r, [c] + calls) == EventsOf(libs, r, c) + EventsOver(libs, React(libs, r, c).0, calls)
  {
    assert ([c] + calls)[0] == c && ([c] + calls)[1..] == calls;
  }

  lemma Reassociate(a: seq<QueueEvent>, b: seq<QueueEvent>, c: seq<QueueEvent>)
    ensures a + b + c == a + (b + c)
  {
  }

  lemma EventsSplit(libs: Libraries, r: Remote, p: Packet, at: Instant, calls: seq<Call>)
    ensures EventsOver(libs, r, [Sends(p, at)] + calls)
      == Puts(r.inbox.Greeting() + r.CommandsFor(p)) + EventsBehind(libs, r, p, at, calls)
  {
    FirstEvents(libs, r, Sends(p, at), calls);
    Reassociate(Puts(r.inbox.Greeting() + r.CommandsFor(p)), [Flushes(Most(r), r.outbox.throttle)],
                EventsOver(libs, React(libs, r, Sends(p, at)).0, calls));
  }

  lemma StartIsQueued(r: Remote, p: Packet)
    requires !IsUnsequenced(p)
    ensures WithPayload(r.inbox.config, Most(r), Greeted(r), StyleFor(r, p), p.data)
      == r.outbox.queue.EnqueueAll(r.inbox.Greeting() + r.CommandsFor(p))
  {
    CommandsForStyle(r, p);
    EnqueueAllInParts(r.outbox.queue, r.inbox.Greeting(), r.CommandsFor(p));
  }

  /** The life of the queue from the packet on. */
  lemma LifeBehind(libs: Libraries, r: Remote, p: Packet, at: Instant, calls: seq<Call>)
    requires SenderMay(libs, r, p, at, calls)
    ensures
      var start := WithPayload(r.inbox.config, Most(r), Greeted(r), StyleFor(r, p), p.data);
      && LifeReadable(libs, r.inbox.config, start, EventsBehind(libs, r, p, at, calls))
      && SentOver(libs, r.inbox.config, start, EventsBehind(libs, r, p, at, calls)) == SentSince(libs, r, p, at, calls)
  {
    CallsAreLife(libs, r, [Sends(p, at)] + calls);
    EventsSplit(libs, r, p, at, calls);
    StartIsQueued(r, p);
    BehindPuts(libs, r.inbox.config, r.outbox.queue, r.inbox.Greeting() + r.CommandsFor(p),
               EventsBehind(libs, r, p, at, calls));
  }

  lemma BehindIsForeign(libs: Libraries, r: Remote, p: Packet, at: Instant, calls: seq<Call>)
    requires SenderMay(libs, r, p, at, calls)
    ensures NoneEnqueued(NumberFor(r, p), EventsBehind(libs, r, p, at, calls))
  {
  }

  /** A packet too long for one command. */
  predicate IsLong(r: Remote, p: Packet) { IsFragmented(r.inbox.config, Most(r), StyleFor(r, p), p.data) }

  function PiecesOf(r: Remote, p: Packet): Sending
    requires IsLong(r, p)
  {
    SendingOf(r.inbox.config, Most(r), StyleFor(r, p), p.data)
  }

  /** Its receiver: no fragments under its number yet, and none but the sender's come in. */
  ghost predicate ReceiverMay(
    libs: Libraries, r: Remote, p: Packet, at: Instant, calls: seq<Call>, i: ValidInbox, arrivals: seq<Arrival>)
    requires IsLong(r, p)
  {
    && NumberFor(r, p) !in i.fragments
    && FromSender(libs, r.inbox.config, PiecesOf(r, p), SentSince(libs, r, p, at, calls), arrivals)
  }

  lemma PiecesAreValid(r: Remote, p: Packet)
    requires IsLong(r, p)
    ensures PiecesOf(r, p).Valid()
  {
    CommandsArePieces(r.inbox.config, Most(r), StyleFor(r, p), p.data);
  }

  /** A packet that a user sends over a peer, long and not unsequenced, whatever is called later and whichever datagrams
      arrive: the receiver gets it exactly when each fragment was in some datagram that arrived, by one fragment and
      at its first completion; a reliable packet in its channel exactly if it was not sent unordered. */
  lemma PacketArrivesIff(
    libs: Libraries, r: Remote, p: Packet, at: Instant, calls: seq<Call>, i: ValidInbox, arrivals: seq<Arrival>)
    requires IsLong(r, p) && SenderMay(libs, r, p, at, calls) && ReceiverMay(libs, r, p, at, calls, i, arrivals)
    ensures PiecesOf(r, p).Valid()
    ensures
      var pieces, steps := PiecesOf(r, p), AllSteps(libs, r.inbox.config, arrivals);
      && ((exists j: nat :: ArrivesAt(p, pieces, i, steps, j)) <==>
            AllCarried(libs, r.inbox.config, pieces, arrivals))
      && (SilentBefore(pieces, i, steps, |steps|) <==> !AllCarried(libs, r.inbox.config, pieces, arrivals))
  {
    var style, steps := StyleFor(r, p), AllSteps(libs, r.inbox.config, arrivals);
    PiecesAreValid(r, p);
    GreetingFits(r, p);
    CommandsForStyle(r, p);
    LifeBehind(libs, r, p, at, calls);
    BehindIsForeign(libs, r, p, at, calls);
    PayloadArrivesIff(libs, r.inbox.config, Most(r), Greeted(r), style, p.data, EventsBehind(libs, r, p, at, calls), i,
                      arrivals);
    DeliversIsArrives(r, p, i, steps);
  }

  lemma DeliversIsArrives(r: Remote, p: Packet, i: ValidInbox, steps: seq<Step>)
    requires IsLong(r, p) && PiecesOf(r, p).Valid() && !IsUnsequenced(p)
    ensures forall j: nat ::
      ArrivesAt(p, PiecesOf(r, p), i, steps, j) <==> DeliversAt(PiecesOf(r, p), p.data, i, steps, j)
  {
    CommandsForStyle(r, p);
  }

  /** The same for a packet that fits one command: whoever reads that command gets the packet, and until a datagram with
      it is sent it waits in the queue. */
  lemma ShortPacketArrivesIff(
    libs: Libraries, r: Remote, p: Packet, at: Instant, calls: seq<Call>, i: ValidInbox, arrivals: seq<Arrival>)
    requires SenderMay(libs, r, p, at, calls)
    requires IsShort(r.inbox.config, Most(r), StyleFor(r, p), p.data)
    ensures
      var c, steps := WholeCommand(StyleFor(r, p), p.data), AllSteps(libs, r.inbox.config, arrivals);
      && ((exists j: nat :: j < |steps| && steps[j].command == c
             && ArrivesBy(p, NumberFor(r, p), After(i, steps[..j]), steps[j]))
            <==> IsCarried(libs, r.inbox.config, c, arrivals))
      && (c in AfterCalls(libs, r, [Sends(p, at)] + calls).outbox.queue.commands
          || exists d {:trigger Contents(libs, r.inbox.config, d)} ::
               d in SentSince(libs, r, p, at, calls) && c in Contents(libs, r.inbox.config, d))
  {
    var style := StyleFor(r, p);
    GreetingFits(r, p);
    CommandsForStyle(r, p);
    LifeBehind(libs, r, p, at, calls);
    QueueBehind(libs, r, p, at, calls);
    ShortPayloadArrivesIff(libs, r.inbox.config, Most(r), Greeted(r), style, p.data,
                           EventsBehind(libs, r, p, at, calls), i, arrivals);
  }

  lemma QueueBehind(libs: Libraries, r: Remote, p: Packet, at: Instant, calls: seq<Call>)
    requires !IsUnsequenced(p)
    ensures
      var start := WithPayload(r.inbox.config, Most(r), Greeted(r), StyleFor(r, p), p.data);
      QueueAfter(libs, r.inbox.config, start, EventsBehind(libs, r, p, at, calls))
        == AfterCalls(libs, r, [Sends(p, at)] + calls).outbox.queue
  {
    var cs := r.inbox.Greeting() + r.CommandsFor(p);
    CallsAreLife(libs, r, [Sends(p, at)] + calls);
    EventsSplit(libs, r, p, at, calls);
    StartIsQueued(r, p);
    PutsEnqueue(libs, r.inbox.config, r.outbox.queue, cs);
    LifeInParts(libs, r.inbox.config, r.outbox.queue, Puts(cs), EventsBehind(libs, r, p, at, calls));
  }

  // ----- the numbers that packets get -----

  /** Does the call send an unreliable packet that is not unsequenced? */
  function PlainIn(c: Call): nat {
    if c.Sends? && c.packet.delivery.Unreliable? && !IsUnsequenced(c.packet) then 1 else 0
  }

  /** How many such packets the user sends. */
  function PlainSends(calls: seq<Call>): nat {
    if calls == [] then 0 else PlainIn(calls[0]) + PlainSends(calls[1..])
  }

  function PiecesIn(r: Remote, c: Call): nat {
    if c.Sends? && IsUnsequenced(c.packet) then |r.CommandsFor(c.packet)| else 0
  }

  /** How many pieces of unsequenced packets. */
  function UnsequencedPieces(libs: Libraries, r: Remote, calls: seq<Call>): nat
    decreases |calls|
  {
    if calls == [] then 0
    else PiecesIn(r, calls[0]) + UnsequencedPieces(libs, React(libs, r, calls[0]).0, calls[1..])
  }

  lemma StepKeepsOutgoing(i: ValidInbox, step: Step)
    ensures Next(i, step).window.outgoing == i.window.outgoing
  {
    if !step.command.SendUnsequenced? {
      OnlyUnsequencedTouchesWindow(i, step);
    }
  }

  lemma {:induction false} PacketKeepsOutgoing(i: ValidInbox, steps: seq<Step>)
    ensures ProcessAll(i, steps).0.window.outgoing == i.window.outgoing
    decreases |steps|
  {
    if steps != [] {
      StepKeepsOutgoing(i, steps[0]);
      if !i.Rejects(steps[0].command) {
        PacketKeepsOutgoing(Next(i, steps[0]), steps[1..]);
      }
    }
  }

  lemma ReceiveNumbers(libs: Libraries, r: Remote, payload: bytes, s: Surroundings)
    ensures r.Receive(libs, payload, s).0.nextUnreliable == r.nextUnreliable
    ensures r.Receive(libs, payload, s).0.inbox.window.outgoing == r.inbox.window.outgoing
  {
    PacketKeepsOutgoing(r.inbox, StepsIn(libs, r.inbox.config, Arrival(payload, s)));
  }

  lemma PreparedNumbers(r: Remote, p: Packet, at: Instant)
    ensures TakesNumbers(r, r.Prepared(p), PlainIn(Sends(p, at)), PiecesIn(r, Sends(p, at)))
  {
    AheadIsWrapped(r.nextUnreliable, PlainIn(Sends(p, at)));
    AheadIsWrapped(r.inbox.window.outgoing, PiecesIn(r, Sends(p, at)));
    WrapPlus(|r.CommandsFor(p)|, r.inbox.window.outgoing);
  }

  lemma SendNumbers(libs: Libraries, r: Remote, p: Packet, at: Instant)
    ensures
      var after := React(libs, r, Sends(p, at)).0;
      after.inbox == r.Prepared(p).inbox && after.nextUnreliable == r.Prepared(p).nextUnreliable
  {
  }

  lemma UpdateNumbers(libs: Libraries, r: Remote, time: Instant, o: Outside)
    ensures React(libs, r, Updates(time, o)).0.nextUnreliable == r.nextUnreliable
    ensures React(libs, r, Updates(time, o)).0.inbox == r.inbox
  {
    UpdateGoesForward(libs, r, time, o);
  }

  /** The number `n` after `number`. */
  function Ahead(number: u16, n: nat): u16
    decreases n
  {
    if n == 0 then number else Ahead(if number == 0xFFFF then 0 else number + 1, n - 1)
  }

  lemma {:induction false} AheadIsWrapped(number: u16, n: nat)
    ensures Ahead(number, n) == Wrap(number + n)
    decreases n
  {
    if n > 0 {
      AheadIsWrapped(if number == 0xFFFF then 0 else number + 1, n - 1);
      WrapWholeLaps(n - 1, 1);
    }
  }

  lemma {:induction false} AheadTwice(number: u16, a: nat, b: nat)
    ensures Ahead(Ahead(number, a), b) == Ahead(number, a + b)
    decreases a
  {
    if a > 0 {
      AheadTwice(if number == 0xFFFF then 0 else number + 1, a - 1, b);
    }
  }

  /** `plain` unreliable numbers and `pieces` groups have been taken. */
  predicate TakesNumbers(r: Remote, after: Remote, plain: nat, pieces: nat) {
    && after.nextUnreliable == Ahead(r.nextUnreliable, plain)
    && after.inbox.window.outgoing == Ahead(r.inbox.window.outgoing, pieces)
  }

  lemma CallNumbers(libs: Libraries, r: Remote, c: Call)
    ensures TakesNumbers(r, React(libs, r, c).0, PlainIn(c), PiecesIn(r, c))
  {
    match c {
      case Receives(payload, s) => ReceiveNumbers(libs, r, payload, s);
      case Sends(p, at) =>
        PreparedNumbers(r, p, at);
        SendNumbers(libs, r, p, at);
      case Updates(time, o) => UpdateNumbers(libs, r, time, o);
      case Disconnects =>
    }
  }

  predicate RunTakes(libs: Libraries, r: Remote, calls: seq<Call>) {
    TakesNumbers(r, AfterCalls(libs, r, calls), PlainSends(calls), UnsequencedPieces(libs, r, calls))
  }

  lemma FirstCall(libs: Libraries, r: Remote, calls: seq<Call>)
    requires calls != []
    ensures
      var next := React(libs, r, calls[0]).0;
      && AfterCalls(libs, r, calls) == AfterCalls(libs, next, calls[1..])
      && PlainSends(calls) == PlainIn(calls[0]) + PlainSends(calls[1..])
      && UnsequencedPieces(libs, r, calls) == PiecesIn(r, calls[0]) + UnsequencedPieces(libs, next, calls[1..])
  {
  }

  lemma TakesInAll(
    r: Remote, mid: Remote, after: Remote, a: nat, b: nat, c: nat, d: nat, plain: nat, pieces: nat)
    requires TakesNumbers(r, mid, a, b) && TakesNumbers(mid, after, c, d) && plain == a + c && pieces == b + d
    ensures TakesNumbers(r, after, plain, pieces)
  {
    AheadTwice(r.nextUnreliable, a, c);
    AheadTwice(r.inbox.window.outgoing, b, d);
  }

  lemma OneCallMore(libs: Libraries, r: Remote, calls: seq<Call>, next: Remote, rest: seq<Call>)
    requires calls != [] && next == React(libs, r, calls[0]).0 && rest == calls[1..]
    requires RunTakes(libs, next, rest) && TakesNumbers(r, next, PlainIn(calls[0]), PiecesIn(r, calls[0]))
    ensures RunTakes(libs, r, calls)
  {
    FirstCall(libs, r, calls);
    TakesInAll(r, next, AfterCalls(libs, next, rest), PlainIn(calls[0]), PiecesIn(r, calls[0]), PlainSends(rest),
               UnsequencedPieces(libs, next, rest), PlainSends(calls), UnsequencedPieces(libs, r, calls));
  }

  /** Over every run of calls each unreliable packet takes the next number and each unsequenced piece the next group, so
      that numbers come again only after a whole lap. */
  lemma {:induction false} NumbersGoOn(libs: Libraries, r: Remote, calls: seq<Call>)
    ensures RunTakes(libs, r, calls)
    decreases |calls|
  {
    if calls != [] {
      CallNumbers(libs, r, calls[0]);
      NumbersGoOn(libs, React(libs, r, calls[0]).0, calls[1..]);
      OneCallMore(libs, r, calls, React(libs, r, calls[0]).0, calls[1..]);
    }
  }

  // ----- unsequenced packets -----

  /** An unsequenced packet goes out in pieces that are its data in a row, under consecutive groups; each piece is
      handed up by itself wherever its group is no duplicate. */
  lemma UnsequencedPacketArrives(r: Remote, p: Packet, i: ValidInbox, step: Step) returns (pieces: seq<bytes>)
    requires IsUnsequenced(p) && p.data != []
    ensures Concat(pieces) == p.data && |pieces| == |r.CommandsFor(p)|
    ensures forall k :: 0 <= k < |pieces| ==>
      r.CommandsFor(p)[k] == SendUnsequenced(p.channelId, Wrap(r.inbox.window.outgoing + k), pieces[k])
    ensures forall k: nat :: k < |pieces| && step.command == r.CommandsFor(p)[k] ==>
      Out(i, step) == if i.window.IsDuplicate(Wrap(r.inbox.window.outgoing + k)) then [] else [p.(data := pieces[k])]
  {
    pieces := Chunks(p.data, UnsequencedBudget(r.inbox.config, Most(r)));
    ChunksConcat(p.data, UnsequencedBudget(r.inbox.config, Most(r)));
    forall k | 0 <= k < |pieces|
      ensures WrappingAdd(r.inbox.window.outgoing, Wrap(k)) == Wrap(r.inbox.window.outgoing + k)
    {
      WrapPlus(k, r.inbox.window.outgoing);
    }
  }

  // ----- to the user at the other end -----

  /** The datagrams that a peer lets in. */
  function LetInOver(libs: Libraries, r: Remote, calls: seq<Call>): seq<Arrival>
    decreases |calls|
  {
    if calls == [] then []
    else
      var c := calls[0];
      (if c.Receives? && LetsIn(r, c.payload, c.around.time) then [Arrival(c.payload, c.around)] else [])
      + LetInOver(libs, React(libs, r, c).0, calls[1..])
  }

  lemma {:induction false} AllStepsInParts(libs: Libraries, config: Config, a: seq<Arrival>, b: seq<Arrival>)
    ensures AllSteps(libs, config, a + b) == AllSteps(libs, config, a) + AllSteps(libs, config, b)
    decreases |b|
  {
    if b == [] {
      assert a + b == a;
    } else {
      var before, last := b[..|b| - 1], b[|b| - 1];
      assert b == before + [last];
      AllStepsInParts(libs, config, a, before);
      OneMoreInParts(libs, config, a, before, last);
    }
  }

  lemma OneMoreInParts(libs: Libraries, config: Config, a: seq<Arrival>, before: seq<Arrival>, last: Arrival)
    requires AllSteps(libs, config, a + before) == AllSteps(libs, config, a) + AllSteps(libs, config, before)
    ensures AllSteps(libs, config, a + (before + [last]))
      == AllSteps(libs, config, a) + AllSteps(libs, config, before + [last])
  {
    assert a + (before + [last]) == (a + before) + [last];
    LastSteps(libs, config, a + before, last);
    LastSteps(libs, config, before, last);
    Grouped(AllSteps(libs, config, a), AllSteps(libs, config, before), StepsIn(libs, config, last));
  }

  lemma LastSteps(libs: Libraries, config: Config, before: seq<Arrival>, last: Arrival)
    ensures AllSteps(libs, config, before + [last]) == AllSteps(libs, config, before) + StepsIn(libs, config, last)
  {
    assert (before + [last])[..|before|] == before;
  }

  lemma Grouped(a: seq<Step>, b: seq<Step>, c: seq<Step>)
    ensures a + b + c == a + (b + c)
  {
  }

  lemma StepsOfOne(libs: Libraries, config: Config, a: Arrival)
    ensures AllSteps(libs, config, [a]) == StepsIn(libs, config, a)
  {
    assert [a][..0] == [];
    assert AllSteps(libs, config, []) + StepsIn(libs, config, a) == StepsIn(libs, config, a);
  }

  lemma {:induction false} StepsLetInAreAll(libs: Libraries, config: Config, r: Remote, calls: seq<Call>)
    requires r.inbox.config.useChecksums == config.useChecksums
    ensures StepsLetIn(libs, r, calls) == AllSteps(libs, config, LetInOver(libs, r, calls))
    decreases |calls|
  {
    if calls != [] {
      var c, next := calls[0], React(libs, r, calls[0]).0;
      CallGoesForward(libs, r, c);
      StepsLetInAreAll(libs, config, next, calls[1..]);
      var rest := LetInOver(libs, next, calls[1..]);
      if c.Receives? && LetsIn(r, c.payload, c.around.time) {
        var a := Arrival(c.payload, c.around);
        StepsOfOne(libs, config, a);
        AllStepsInParts(libs, config, [a], rest);
        assert StepsIn(libs, config, a) == StepsIn(libs, r.inbox.config, a);
      } else {
        assert [] + rest == rest;
        assert [] + AllSteps(libs, config, rest) == AllSteps(libs, config, rest);
      }
    }
  }

  lemma {:induction false} OutIsHandedUp(i: ValidInbox, steps: seq<Step>, j: nat, d: Packet)
    requires j < |steps| && d in Out(After(i, steps[..j]), steps[j])
    ensures d in HandedUp(i, steps)
    decreases |steps|
  {
    if j == |steps| - 1 {
      assert steps[..j] == steps[..|steps| - 1];
    } else {
      var before := steps[..|steps| - 1];
      assert before[..j] == steps[..j] && before[j] == steps[j];
      OutIsHandedUp(i, before, j, d);
    }
  }

  lemma ArrivedIsHandedUp(p: Packet, pieces: Sending, i: ValidInbox, steps: seq<Step>, j: nat)
    requires pieces.Valid() && !IsInOrder(p) && ArrivesAt(p, pieces, i, steps, j)
    ensures p.(ordering := Acknowledgment.Unordered) in HandedUp(i, steps)
  {
    OutIsHandedUp(i, steps, j, p.(ordering := Acknowledgment.Unordered));
  }

  /** From user to user: unless it is for a channel in order, a long packet sent over one peer is emitted by the other
      once each of its fragments was in some datagram that was let in. */
  lemma PacketIsEmitted(
    libs: Libraries, r: Remote, p: Packet, at: Instant, calls: seq<Call>, other: Remote, otherCalls: seq<Call>)
    requires other.inbox.config.useChecksums == r.inbox.config.useChecksums && NoneLost(libs, other, otherCalls)
    requires IsLong(r, p) && !IsInOrder(p) && SenderMay(libs, r, p, at, calls)
    requires ReceiverMay(libs, r, p, at, calls, other.inbox, LetInOver(libs, other, otherCalls))
    requires PiecesOf(r, p).Valid()
    requires AllCarried(libs, r.inbox.config, PiecesOf(r, p), LetInOver(libs, other, otherCalls))
    ensures p.(ordering := Acknowledgment.Unordered) in Emitted(ActionsOf(libs, other, otherCalls))
  {
    var arrivals := LetInOver(libs, other, otherCalls);
    var steps := AllSteps(libs, r.inbox.config, arrivals);
    PacketArrivesIff(libs, r, p, at, calls, other.inbox, arrivals);
    var j: nat :| ArrivesAt(p, PiecesOf(r, p), other.inbox, steps, j);
    ArrivedIsHandedUp(p, PiecesOf(r, p), other.inbox, steps, j);
    StepsLetInAreAll(libs, r.inbox.config, other, otherCalls);
    EmittedIsHandedUp(libs, other, otherCalls);
  }
}

/** Two acknowledgment handlers that exchange (sequence, ack, mask) headers over a
    network that may lose, duplicate and reorder them. Absolute packet numbers never
    wrap; the handlers only ever see their 16-bit names. */
module AckProtocol {
  import opened Numbers
  import opened Bits
  import opened SerialNumbers
  import opened Acknowledgment
  import opened ReceiveHistory

  /** A header on the wire, with the absolute numbers of the packet it heads and of
      the newest packet its sender had accepted (-1 before the first). */
  datatype Message = Message(seqAbs: nat, ackAbs: int, number: u16, ack: u16, mask: Word) {
    /** Does the header name the packet `i` before the newest one? */
    predicate Names(i: nat) {
      i == 0 || (i <= REDUNDANT_PACKET_ACKS_SIZE && mask[i - 1])
    }
  }

  /** `sentSoFar` packets were sent; `live` gives the absolute number of the packet in
      flight under each name; `highest` is the highest acknowledged number. */
  datatype Endpoint = Endpoint(
    handler: Handler, past: History<ReceivedPacket>, sentSoFar: nat, live: map<u16, nat>,
    acked: set<nat>, dropped: set<nat>, highest: int)
  {
    /** The books on what was sent are kept, whatever the headers that came in said. */
    predicate Kept() {
      && handler.Valid() && past.Sized()
      && handler.sequenceNumber == Wrap(sentSoFar)
      && live.Keys == handler.sent.Keys
      && forall k :: k in live ==> Wrap(live[k]) == k && sentSoFar - 0x1_0000 <= live[k] < sentSoFar
    }

    ghost predicate Valid() {
      && Kept()
      && past.Sound() && past.ring == handler.received
      && handler.highestAck == Wrap(highest)
    }

    /** Every packet sent is exactly one of in flight, acknowledged and dropped. */
    ghost predicate Conserved() {
      && (forall n: nat :: n < sentSoFar <==> n in live.Values || n in acked || n in dropped)
      && live.Values !! acked !! dropped
    }

    function Header(): Message
      requires handler.Valid()
    {
      Message(sentSoFar, past.next - 1, handler.sequenceNumber, handler.RemoteSequenceNum(), handler.AckBitfield())
    }

    function Send(packet: SentPacket): Endpoint {
      this.(handler := handler.Outgoing(packet), sentSoFar := sentSoFar + 1,
            live := live[handler.sequenceNumber := sentSoFar])
    }

    function Receive(m: Message): Endpoint
      requires handler.Valid() && past.Sized()
    {
      var named := Named(m.ack, m.mask);
      this.(handler := handler.Incoming(m.number, m.ack, m.mask),
            past := past.Arrive(m.seqAbs, ReceivedPacket, ReceivedPacket),
            live := live - named,
            acked := acked + set k | k in live && k in named :: live[k],
            highest := if SequenceGreaterThan(m.ack, handler.highestAck) then m.ackAbs else highest)
    }

    function Expire(): Endpoint {
      var lost := handler.Lost();
      this.(handler := handler.DropLost(),
            live := live - lost,
            dropped := dropped + set k | k in live && k in lost :: live[k])
    }
  }

  function Fresh(): Endpoint {
    Endpoint(Initial(), Start(ReceivedPacket), 0, map[], {}, {}, -1)
  }

  /** What a header says is true of a sender that has accepted `accepted` and sent `count` packets. */
  ghost predicate Truthful(m: Message, accepted: set<nat>, count: nat) {
    && m.number == Wrap(m.seqAbs) && m.seqAbs < count
    && m.ack == Wrap(m.ackAbs) && -1 <= m.ackAbs
    && forall i: nat :: m.Names(i) ==> NamesAccepted(m, i, accepted)
  }

  /** Before anything was accepted a header names -1, the packet before the first. */
  predicate NamesAccepted(m: Message, i: nat, accepted: set<nat>) {
    if m.ackAbs < i then m.ackAbs == -1 && i == 0 else m.ackAbs - i in accepted
  }

  ghost predicate AllTruthful(sent: set<Message>, e: Endpoint) {
    forall m :: m in sent ==> Truthful(m, e.past.accepted, e.sentSoFar)
  }

  lemma TruthLasts(sent: set<Message>, e: Endpoint, f: Endpoint)
    requires AllTruthful(sent, e)
    requires e.past.accepted <= f.past.accepted && e.sentSoFar <= f.sentSoFar
    ensures AllTruthful(sent, f)
  {
    forall m, i: nat | m in sent && m.Names(i)
      ensures NamesAccepted(m, i, f.past.accepted)
    {
      assert Truthful(m, e.past.accepted, e.sentSoFar);
      assert NamesAccepted(m, i, e.past.accepted);
    }
  }

  /** What an endpoint believes about its peer is true of the peer. */
  ghost predicate Believes(e: Endpoint, peer: Endpoint) {
    && (forall g :: g in e.past.accepted ==> g < peer.sentSoFar)
    && e.acked <= peer.past.accepted
    && -1 <= e.highest
    && (e.highest == -1 || e.highest in peer.past.accepted)
  }

  /** A system: two endpoints and every header each has ever sent. Headers are never
      taken out, so any of them may arrive any number of times, in any order, or never. */
  datatype System = System(here: Endpoint, there: Endpoint, fromHere: set<Message>, fromThere: set<Message>) {
    function Swap(): System { System(there, here, fromThere, fromHere) }
  }

  ghost predicate Init(s: System) {
    s == System(Fresh(), Fresh(), {}, {})
  }

  /** The names in a header are read in the lap in which they were written, the packet it
      heads is near the newest one, and its ack is near the highest one. */
  ghost predicate Timely(e: Endpoint, m: Message) {
    && e.past.Near(m.seqAbs)
    && (forall i: nat :: m.Names(i) ==> e.sentSoFar - 0x1_0000 <= m.ackAbs - i)
    && -32768 < m.ackAbs - e.highest < 32768
  }

  ghost predicate HereSends(s: System, t: System, packet: SentPacket)
    requires s.here.Valid()
  {
    && s.here.handler.sequenceNumber !in s.here.handler.sent // the name is not in use
    && t == s.(here := s.here.Send(packet), fromHere := s.fromHere + {s.here.Header()})
  }

  ghost predicate HereReceives(s: System, t: System, m: Message)
    requires s.here.Valid()
  {
    && m in s.fromThere
    && Timely(s.here, m)
    && t == s.(here := s.here.Receive(m))
  }

  ghost predicate HereExpires(s: System, t: System)
    requires s.here.Valid()
  {
    t == s.(here := s.here.Expire())
  }

  ghost predicate HereSteps(s: System, t: System)
    requires s.here.Valid()
  {
    || (exists packet :: HereSends(s, t, packet))
    || (exists m :: HereReceives(s, t, m))
    || HereExpires(s, t)
  }

  ghost predicate Next(s: System, t: System) {
    || (s.here.Valid() && HereSteps(s, t))
    || (s.there.Valid() && HereSteps(s.Swap(), t.Swap()))
  }

  ghost predicate Half(e: Endpoint, peer: Endpoint, sent: set<Message>) {
    && e.Valid() && e.Conserved() && Believes(e, peer)
    && AllTruthful(sent, e)
  }

  ghost predicate Inv(s: System) {
    && Half(s.here, s.there, s.fromHere)
    && Half(s.there, s.here, s.fromThere)
  }

  ghost predicate IsRun(run: seq<System>) {
    && run != [] && Init(run[0])
    && forall i :: 0 <= i < |run| - 1 ==> Next(run[i], run[i + 1])
  }

  // ----- sending -----

  lemma WrapMinusOne(n: int)
    ensures WrappingSub(Wrap(n), 1) == Wrap(n - 1)
  {
    WrapPlus(n, -1);
  }

  /** A mask bit set by a handler names a packet that it accepted. */
  lemma BitNamesAccepted(h: Handler, past: History<ReceivedPacket>, i: nat)
    requires h.Valid() && past.Sound() && past.ring == h.received
    requires 1 <= i <= REDUNDANT_PACKET_ACKS_SIZE && h.AckBitfield()[i - 1]
    ensures 0 <= past.next - 1 - i && past.next - 1 - i in past.accepted
  {
    WrapMinusOne(past.next);
    var back: int := i;
    WrapPlus(past.next - 1, -back);
    assert h.AckBitfield()[i - 1] == past.ring.Exists(Wrap(h.RemoteSequenceNum() - i));
    assert past.ring.Exists(Wrap(past.next - 1 - i));
  }

  lemma MaskBitWasAccepted(e: Endpoint, i: nat)
    requires e.Valid() && 1 <= i <= REDUNDANT_PACKET_ACKS_SIZE && e.handler.AckBitfield()[i - 1]
    ensures 0 <= e.past.next - 1 - i && e.past.next - 1 - i in e.past.accepted
  {
    BitNamesAccepted(e.handler, e.past, i);
  }

  lemma HeaderIsTruthful(e: Endpoint)
    requires e.Valid()
    ensures Truthful(e.Header(), e.past.accepted, e.sentSoFar + 1)
  {
    WrapMinusOne(e.past.next);
    forall i: nat | e.Header().Names(i)
      ensures NamesAccepted(e.Header(), i, e.past.accepted)
    {
      if i > 0 {
        MaskBitWasAccepted(e, i);
      }
    }
  }

  lemma SendKeepsBooks(e: Endpoint, packet: SentPacket)
    requires e.Kept()
    ensures e.Send(packet).Kept()
  {
    WrapPlus(e.sentSoFar, 1);
    var f := e.Send(packet);
    forall k | k in f.live
      ensures Wrap(f.live[k]) == k && f.sentSoFar - 0x1_0000 <= f.live[k] < f.sentSoFar
    {
      if k != e.handler.sequenceNumber && e.live[k] == e.sentSoFar - 0x1_0000 {
        WrapWholeLaps(e.live[k], 1);
      }
    }
  }

  /** Sending conserves packets exactly when the name is not in use: otherwise the
      packet in flight under that name is forgotten. */
  lemma SendConservesIff(e: Endpoint, packet: SentPacket)
    requires e.Kept() && e.Conserved()
    ensures e.Send(packet).Conserved() <==> e.handler.sequenceNumber !in e.handler.sent
  {
    var f := e.Send(packet);
    var k := e.handler.sequenceNumber;
    assert f.live[k] == e.sentSoFar;
    if k in e.live {
      var n := e.live[k];
      assert n in e.live.Values && n < f.sentSoFar;
      assert forall j :: j in f.live ==> f.live[j] != n;
      assert n !in f.live.Values;
    } else {
      assert f.live.Values == e.live.Values + {e.sentSoFar} by {
        forall n | n in e.live.Values ensures n in f.live.Values {
          var j :| j in e.live && e.live[j] == n;
          assert f.live[j] == n;
        }
      }
    }
  }

  // ----- receiving -----

  /** A name removed because of a truthful and timely header is that of a packet the peer accepted. */
  lemma RemovedWasAccepted(e: Endpoint, peer: Endpoint, m: Message, k: u16)
    requires e.Valid() && Believes(peer, e) && Truthful(m, peer.past.accepted, peer.sentSoFar) && Timely(e, m)
    requires k in e.live && k in Named(m.ack, m.mask)
    ensures e.live[k] in peer.past.accepted
  {
    var i := NamedAt(m, k);
    var back: int := i;
    WrapPlus(m.ackAbs, -back);
    var a := m.ackAbs - back;
    assert NamesAccepted(m, i, peer.past.accepted);
    WrapInjective(a, e.live[k]);
  }

  lemma NamedAt(m: Message, k: u16) returns (i: nat)
    requires k in Named(m.ack, m.mask)
    ensures m.Names(i) && k == Wrap(m.ack - i)
  {
    if k == m.ack {
      i := 0;
    } else {
      i :| 1 <= i <= REDUNDANT_PACKET_ACKS_SIZE && m.mask[i - 1] && k == WrappingSub(m.ack, i);
    }
  }

  lemma ReceiveKeepsValid(e: Endpoint, peer: Endpoint, m: Message)
    requires e.Valid() && Truthful(m, peer.past.accepted, peer.sentSoFar) && Timely(e, m)
    ensures e.Receive(m).Valid()
    ensures e.highest <= e.Receive(m).highest
    ensures e.Receive(m).highest == Max(e.highest, m.ackAbs)
  {
    IncomingRemovesNamed(e.handler, m.number, m.ack, m.mask);
    ArrivalKeepsSound(e.past, m.seqAbs, ReceivedPacket, ReceivedPacket);
    OrderOfNames(m.ackAbs, e.highest);
  }

  lemma MovedConserves(live: map<u16, nat>, gone: set<u16>)
    requires forall j, k :: j in live && k in live && live[j] == live[k] ==> j == k
    ensures
      var moved := set k | k in live && k in gone :: live[k];
      live.Values == (live - gone).Values + moved && (live - gone).Values !! moved
  {
    var left := live - gone;
    forall n | n in live.Values ensures n in left.Values || exists k :: k in live && k in gone && live[k] == n {
      var k :| k in live && live[k] == n;
      if k !in gone {
        assert left[k] == n;
      }
    }
  }

  lemma LiveIsInjective(e: Endpoint)
    requires e.Kept()
    ensures forall j, k :: j in e.live && k in e.live && e.live[j] == e.live[k] ==> j == k
  {
  }

  lemma ReceiveKeepsBooks(e: Endpoint, m: Message)
    requires e.Kept()
    ensures e.Receive(m).Kept()
  {
    IncomingRemovesNamed(e.handler, m.number, m.ack, m.mask);
  }

  /** Whatever a header says, it conserves packets. */
  lemma ReceiveKeepsConserved(e: Endpoint, m: Message)
    requires e.Kept() && e.Conserved()
    ensures e.Receive(m).Conserved()
  {
    LiveIsInjective(e);
    MovedConserves(e.live, Named(m.ack, m.mask));
  }

  lemma ReceiveKeepsBelief(e: Endpoint, peer: Endpoint, m: Message)
    requires e.Valid() && Believes(e, peer) && Believes(peer, e)
    requires Truthful(m, peer.past.accepted, peer.sentSoFar) && Timely(e, m)
    ensures Believes(e.Receive(m), peer)
  {
    ReceiveKeepsValid(e, peer, m);
    assert m.Names(0) && NamesAccepted(m, 0, peer.past.accepted);
    forall n | n in e.Receive(m).acked
      ensures n in peer.past.accepted
    {
      if n !in e.acked {
        var k :| k in e.live && k in Named(m.ack, m.mask) && e.live[k] == n;
        RemovedWasAccepted(e, peer, m, k);
      }
    }
  }

  // ----- dropping -----

  /** Within a lap of the highest ack, the lost packets are those more than 32 behind it and less than half a lap, those
      more than half a lap ahead but not within 32 of a whole one, and at half a lap exactly those that the tie decides
      against. In particular nothing more than half a lap behind is ever lost. */
  lemma LostIff(n: int, highest: int)
    requires -0x1_0000 < n - highest < 0x1_0000
    ensures IsLost(Wrap(n), Wrap(highest)) <==>
      || REDUNDANT_PACKET_ACKS_SIZE < highest - n < 32768
      || 32768 < n - highest < 0x1_0000 - REDUNDANT_PACKET_ACKS_SIZE
      || ((n - highest == 32768 || highest - n == 32768) && 32768 <= Wrap(highest))
  {
    GreaterByDistance(Wrap(highest), Wrap(n));
    WrapHomomorphic(highest, n);
  }

  /** The distances from the highest ack at which a packet is rightly called lost or not lost. */
  predicate RightDistance(n: int, highest: int) {
    var ahead := n - highest;
    if ahead < 0 then
      -32768 < ahead || (ahead == -32768 && 32768 <= Wrap(highest))
    else
      || Wrap(ahead) < 32768 || 0x1_0000 - REDUNDANT_PACKET_ACKS_SIZE <= Wrap(ahead)
      || (Wrap(ahead) == 32768 && Wrap(highest) < 32768)
  }

  /** Being lost and being more than 32 behind are the same exactly at the right distances. */
  lemma LostIsFarBehindIff(n: int, highest: int)
    requires -0x1_0000 < n - highest
    ensures (IsLost(Wrap(n), Wrap(highest)) <==> n + REDUNDANT_PACKET_ACKS_SIZE < highest) <==>
      RightDistance(n, highest)
  {
    var ahead := n - highest;
    if ahead < 0 {
      LostIff(n, highest);
    } else {
      WrapPlus(highest, ahead);
      WrapPlus(ahead, highest);
      LostIff(highest + Wrap(ahead), highest);
    }
  }

  /** Expiring drops exactly the packets in flight whose names count as lost. */
  lemma ExpireDropsLost(e: Endpoint, n: nat)
    requires e.Valid() && e.Conserved() && n in e.live.Values
    ensures n in e.Expire().dropped <==> IsLost(Wrap(n), Wrap(e.highest))
  {
    DropLostDropsSet(e.handler);
    LiveIsInjective(e);
    var k :| k in e.live && e.live[k] == n;
    assert k in e.handler.Lost() <==> IsLost(k, e.handler.highestAck);
  }

  /** Expiring drops exactly the packets more than 32 behind the highest ack if and only if every
      packet in flight is at a right distance from it. */
  lemma ExpireIsRightIff(e: Endpoint)
    requires e.Valid() && e.Conserved() && e.highest < e.sentSoFar
    ensures
      (forall n :: n in e.live.Values ==>
        (n in e.Expire().dropped <==> n + REDUNDANT_PACKET_ACKS_SIZE < e.highest)) <==>
      (forall n :: n in e.live.Values ==> RightDistance(n, e.highest))
  {
    forall n | n in e.live.Values
      ensures (n in e.Expire().dropped <==> n + REDUNDANT_PACKET_ACKS_SIZE < e.highest) <==> RightDistance(n, e.highest)
    {
      ExpireDropsLost(e, n);
      LostIsFarBehindIff(n, e.highest);
    }
  }

  lemma ExpireKeepsBooks(e: Endpoint)
    requires e.Kept()
    ensures e.Expire().Kept()
    ensures e.Conserved() ==> e.Expire().Conserved()
  {
    DropLostDropsSet(e.handler);
    LiveIsInjective(e);
    MovedConserves(e.live, e.handler.Lost());
  }

  lemma ExpireKeepsHalf(e: Endpoint, peer: Endpoint, sent: set<Message>)
    requires Half(e, peer, sent)
    ensures Half(e.Expire(), peer, sent)
  {
    DropLostDropsSet(e.handler);
    LiveIsInjective(e);
    MovedConserves(e.live, e.handler.Lost());
  }

  // ----- runs -----

  lemma SendKeepsInv(s: System, t: System, packet: SentPacket)
    requires Inv(s) && HereSends(s, t, packet)
    ensures Inv(t)
  {
    HeaderIsTruthful(s.here);
    SendKeepsBooks(s.here, packet);
    SendConservesIff(s.here, packet);
    TruthLasts(s.fromHere, s.here, t.here);
  }

  lemma ReceiveKeepsInv(s: System, t: System, m: Message)
    requires Inv(s) && HereReceives(s, t, m)
    ensures Inv(t)
  {
    ReceiveKeepsValid(s.here, s.there, m);
    ReceiveKeepsConserved(s.here, m);
    ReceiveKeepsBelief(s.here, s.there, m);
    TruthLasts(s.fromHere, s.here, t.here);
  }

  lemma StepKeepsInv(s: System, t: System)
    requires Inv(s) && HereSteps(s, t)
    ensures Inv(t)
  {
    if packet :| HereSends(s, t, packet) {
      SendKeepsInv(s, t, packet);
    } else if m :| HereReceives(s, t, m) {
      ReceiveKeepsInv(s, t, m);
    } else {
      ExpireKeepsHalf(s.here, s.there, s.fromHere);
    }
  }

  lemma {:induction false} RunKeepsInv(run: seq<System>, i: nat)
    requires IsRun(run) && i < |run|
    ensures Inv(run[i])
  {
    if i > 0 {
      RunKeepsInv(run, i - 1);
      if run[i - 1].here.Valid() && HereSteps(run[i - 1], run[i]) {
        StepKeepsInv(run[i - 1], run[i]);
      } else {
        StepKeepsInv(run[i - 1].Swap(), run[i].Swap());
      }
    }
  }

  /** In every state of every run, across any number of wraps: what a side took out of
      flight as acknowledged really was accepted by the other side. */
  lemma AcknowledgedWasAccepted(run: seq<System>, i: nat)
    requires IsRun(run) && i < |run|
    ensures run[i].here.acked <= run[i].there.past.accepted
    ensures run[i].there.acked <= run[i].here.past.accepted
  {
    RunKeepsInv(run, i);
  }

  ghost predicate AllRight(e: Endpoint) { forall n :: n in e.live.Values ==> RightDistance(n, e.highest) }

  /** Whenever a side of the run drops a packet, its packets in flight are at right distances. */
  ghost predicate DropsRightly(run: seq<System>) {
    forall i :: 0 <= i < |run| - 1 ==>
      && (run[i + 1].here.dropped != run[i].here.dropped ==> AllRight(run[i].here))
      && (run[i + 1].there.dropped != run[i].there.dropped ==> AllRight(run[i].there))
  }

  ghost predicate DroppedAreFarBehind(e: Endpoint) {
    forall n :: n in e.dropped ==> n + REDUNDANT_PACKET_ACKS_SIZE < e.highest
  }

  lemma StepKeepsFarBehind(s: System, t: System)
    requires Inv(s) && HereSteps(s, t) && DroppedAreFarBehind(s.here)
    requires t.here.dropped != s.here.dropped ==> AllRight(s.here)
    ensures DroppedAreFarBehind(t.here)
  {
    if packet :| HereSends(s, t, packet) {
    } else if m :| HereReceives(s, t, m) {
      ReceiveKeepsValid(s.here, s.there, m);
    } else if t.here.dropped != s.here.dropped {
      ExpireIsRightIff(s.here);
      ExpireAddsLive(s.here);
    }
  }

  lemma ExpireAddsLive(e: Endpoint)
    requires e.Valid()
    ensures e.Expire().dropped <= e.dropped + e.live.Values && e.Expire().highest == e.highest
  {
  }

  /** In every state of every run that drops at right distances, nothing that a header at the
      highest ack could still name has been dropped. */
  lemma {:induction false} NothingNameableIsDropped(run: seq<System>, i: nat)
    requires IsRun(run) && DropsRightly(run) && i < |run|
    ensures DroppedAreFarBehind(run[i].here) && DroppedAreFarBehind(run[i].there)
  {
    if i > 0 {
      NothingNameableIsDropped(run, i - 1);
      RunKeepsInv(run, i - 1);
      var s, t := run[i - 1], run[i];
      assert Next(s, run[i - 1 + 1]);
      if s.here.Valid() && HereSteps(s, t) {
        StepKeepsFarBehind(s, t);
        OtherSideKept(s, t);
      } else {
        StepKeepsFarBehind(s.Swap(), t.Swap());
        OtherSideKept(s.Swap(), t.Swap());
      }
    }
  }

  lemma OtherSideKept(s: System, t: System)
    requires s.here.Valid() && HereSteps(s, t)
    ensures t.there == s.there
  {
  }

  // ----- one endpoint and whatever comes its way -----

  /** What an endpoint may go through: a header that comes in may say anything and come from anyone. */
  datatype Happening = Sends(packet: SentPacket) | Hears(m: Message) | Expires

  type Keeper = e: Endpoint | e.Kept() witness Fresh()

  function Undergo(e: Keeper, h: Happening): Keeper {
    match h
    case Sends(packet) => SendKeepsBooks(e, packet); e.Send(packet)
    case Hears(m) => ReceiveKeepsBooks(e, m); e.Receive(m)
    case Expires => ExpireKeepsBooks(e); e.Expire()
  }

  function UndergoAll(e: Keeper, hs: seq<Happening>): Keeper {
    if hs == [] then e else Undergo(UndergoAll(e, hs[..|hs| - 1]), hs[|hs| - 1])
  }

  /** The name that the next packet would get is in use by one in flight. */
  predicate NameIsTaken(e: Keeper) { e.handler.sequenceNumber in e.handler.sent }

  lemma StepConservesIff(e: Keeper, h: Happening)
    requires e.Conserved()
    ensures Undergo(e, h).Conserved() <==> !(h.Sends? && NameIsTaken(e))
  {
    match h {
      case Sends(packet) => SendConservesIff(e, packet);
      case Hears(m) => ReceiveKeepsConserved(e, m);
      case Expires => ExpireKeepsBooks(e);
    }
  }

  /** In every state of the history each packet sent is exactly one of in flight, acknowledged and dropped. */
  ghost predicate AlwaysConserved(hs: seq<Happening>) {
    && UndergoAll(Fresh(), hs).Conserved()
    && (hs == [] || AlwaysConserved(hs[..|hs| - 1]))
  }

  predicate SendsOnlyFreeNames(hs: seq<Happening>) {
    hs == []
    || (var before := hs[..|hs| - 1];
        SendsOnlyFreeNames(before) && !(hs[|hs| - 1].Sends? && NameIsTaken(UndergoAll(Fresh(), before))))
  }

  /** Over every history of sends, headers and drops, whatever the headers say and wherever they come from: packets are
      conserved throughout if and only if no packet is sent under a name that is still in flight. */
  lemma {:induction false} PacketsAreConserved(hs: seq<Happening>)
    ensures AlwaysConserved(hs) <==> SendsOnlyFreeNames(hs)
    decreases |hs|
  {
    if hs != [] {
      var before, last := hs[..|hs| - 1], hs[|hs| - 1];
      PacketsAreConserved(before);
      if AlwaysConserved(before) {
        StepConservesIff(UndergoAll(Fresh(), before), last);
      }
    } else {
      FreshConserves();
    }
  }

  lemma FreshConserves()
    ensures UndergoAll(Fresh(), []) == Fresh() && Fresh().Conserved()
  {
  }

  /** The packets that a history sends, in order: the one with absolute number `n` stands at `n`. */
  function PacketsSent(hs: seq<Happening>): seq<SentPacket> {
    if hs == [] then []
    else PacketsSent(hs[..|hs| - 1]) + if hs[|hs| - 1].Sends? then [hs[|hs| - 1].packet] else []
  }

  /** What is in flight under a name is the very packet that was sent under its absolute number. */
  ghost predicate FliesAsSent(e: Endpoint, packets: seq<SentPacket>) {
    && e.sentSoFar == |packets|
    && (forall k :: k in e.live ==>
          0 <= e.live[k] < |packets| && k in e.handler.sent && e.handler.sent[k] == packets[e.live[k]])
  }

  lemma SendFliesAsSent(e: Keeper, packet: SentPacket, packets: seq<SentPacket>)
    requires FliesAsSent(e, packets)
    ensures FliesAsSent(e.Send(packet), packets + [packet])
  {
  }

  lemma StepFliesAsSent(e: Keeper, h: Happening, packets: seq<SentPacket>)
    requires FliesAsSent(e, packets)
    ensures FliesAsSent(Undergo(e, h), packets + if h.Sends? then [h.packet] else [])
  {
    assert packets + [] == packets;
    match h {
      case Sends(packet) => SendFliesAsSent(e, packet, packets);
      case Hears(m) => IncomingRemovesNamed(e.handler, m.number, m.ack, m.mask);
      case Expires => DropLostDropsSet(e.handler);
    }
  }

  lemma {:induction false} AllFlyAsSent(hs: seq<Happening>)
    ensures FliesAsSent(UndergoAll(Fresh(), hs), PacketsSent(hs))
    decreases |hs|
  {
    if hs != [] {
      AllFlyAsSent(hs[..|hs| - 1]);
      StepFliesAsSent(UndergoAll(Fresh(), hs[..|hs| - 1]), hs[|hs| - 1], PacketsSent(hs[..|hs| - 1]));
    }
  }

  /** After every history, what dropping returns are the very packets that were sent under the lost numbers, in the
      order of their names. */
  lemma DroppedAreAsSent(hs: seq<Happening>) returns (names: seq<u16>)
    ensures
      var e := UndergoAll(Fresh(), hs);
      var taken := Purge(e.handler.sent, Sorted(e.handler.sent.Keys), LostTest(e.handler.highestAck)).1;
      && |taken| == |names| && (forall k :: k in names <==> k in e.live && IsLost(k, e.handler.highestAck))
      && (forall i, j :: 0 <= i < j < |names| ==> names[i] < names[j])
      && (forall i :: 0 <= i < |names| ==>
            && names[i] in e.live && 0 <= e.live[names[i]] < |PacketsSent(hs)|
            && taken[i] == PacketsSent(hs)[e.live[names[i]]])
  {
    AllFlyAsSent(hs);
    names := DroppedAreReturned(UndergoAll(Fresh(), hs).handler);
    assert forall i :: 0 <= i < |names| ==> names[i] in names;
  }
}

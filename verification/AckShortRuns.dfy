/** Acknowledgment without any assumption on timing: when each side sends fewer than
    65536 packets, no reordering or delay can make a header name the wrong packet. */
module AckShortRuns {
  import opened Numbers
  import opened Bits
  import opened SequenceBuffer
  import opened Acknowledgment
  import opened ReceiveHistory

  /** Before anything was received the ack reads 65535, so that number must stay unused. */
  const UNUSED: u16 := 65535

  datatype Header = Header(number: u16, ack: u16, mask: Word)

  /** In a short run a packet's name is its number. */
  datatype Endpoint = Endpoint(handler: Handler, accepted: set<u16>, acked: set<u16>) {
    ghost predicate Valid() {
      && handler.Valid()
      && (forall s :: handler.received.Exists(s) ==> s in accepted)
      && (handler.RemoteSequenceNum() == UNUSED || handler.RemoteSequenceNum() in accepted)
      && UNUSED !in accepted
      && (forall k :: k in handler.sent ==> k < handler.sequenceNumber)
    }

    function Announce(): Header
      requires handler.Valid()
    {
      Header(handler.sequenceNumber, handler.RemoteSequenceNum(), handler.AckBitfield())
    }

    function Send(packet: SentPacket): Endpoint { this.(handler := handler.Outgoing(packet)) }

    function Receive(h: Header): Endpoint
      requires handler.Valid()
    {
      Endpoint(handler.Incoming(h.number, h.ack, h.mask),
               if handler.received.TooOld(h.number) then accepted else accepted + {h.number},
               acked + (handler.sent.Keys * Named(h.ack, h.mask)))
    }
  }

  ghost predicate Truthful(h: Header, accepted: set<u16>) {
    h.number != UNUSED && forall k :: k in Named(h.ack, h.mask) ==> k == UNUSED || k in accepted
  }

  datatype System = System(here: Endpoint, there: Endpoint, fromHere: set<Header>, fromThere: set<Header>) {
    function Swap(): System { System(there, here, fromThere, fromHere) }
  }

  ghost predicate Init(s: System) {
    var e := Endpoint(Initial(), {}, {});
    s == System(e, e, {}, {})
  }

  ghost predicate HereSends(s: System, t: System, packet: SentPacket)
    requires s.here.handler.Valid()
  {
    && s.here.handler.sequenceNumber != UNUSED
    && t == s.(here := s.here.Send(packet), fromHere := s.fromHere + {s.here.Announce()})
  }

  /** A side may send while number 65535 would stay unused, receive any header ever sent
      to it, or drop what it takes for lost. */
  ghost predicate HereSteps(s: System, t: System)
    requires s.here.handler.Valid()
  {
    || (exists packet :: HereSends(s, t, packet))
    || (exists h :: h in s.fromThere && t == s.(here := s.here.Receive(h)))
    || t == s.(here := s.here.(handler := s.here.handler.DropLost()))
  }

  ghost predicate Next(s: System, t: System) {
    || (s.here.handler.Valid() && HereSteps(s, t))
    || (s.there.handler.Valid() && HereSteps(s.Swap(), t.Swap()))
  }

  ghost predicate IsRun(run: seq<System>) {
    && run != [] && Init(run[0])
    && forall i :: 0 <= i < |run| - 1 ==> Next(run[i], run[i + 1])
  }

  ghost predicate Half(e: Endpoint, peer: Endpoint, sent: set<Header>) {
    && e.Valid()
    && e.acked <= peer.accepted
    && forall h :: h in sent ==> Truthful(h, e.accepted)
  }

  ghost predicate Inv(s: System) {
    && Half(s.here, s.there, s.fromHere)
    && Half(s.there, s.here, s.fromThere)
  }

  lemma AnnounceIsTruthful(e: Endpoint)
    requires e.Valid() && e.handler.sequenceNumber != UNUSED
    ensures Truthful(e.Announce(), e.accepted)
  {
    var h := e.Announce();
    forall k | k in Named(h.ack, h.mask) ensures k == UNUSED || k in e.accepted {
      if k != h.ack {
        var i :| 1 <= i <= REDUNDANT_PACKET_ACKS_SIZE && h.mask[i - 1] && k == WrappingSub(h.ack, i);
        assert h.mask[i - 1] == e.handler.received.Exists(Wrap(h.ack - i));
      }
    }
  }

  /** However far out of order, an arrival leaves only accepted numbers in the ring. */
  lemma ReceiveKeepsValid(e: Endpoint, h: Header)
    requires e.Valid() && h.number != UNUSED
    ensures e.Receive(h).Valid()
  {
    var f := e.Receive(h);
    var r := e.handler.received;
    forall s | f.handler.received.Exists(s) ensures s in f.accepted {
      if !r.TooOld(h.number) {
        ExistsAfterInsert(r, h.number, ReceivedPacket, ReceivedPacket, s);
      }
    }
    IncomingRemovesNamed(e.handler, h.number, h.ack, h.mask);
    NewestIsAccepted(r, h.number);
  }

  lemma NewestIsAccepted(r: Ring<ReceivedPacket>, s: u16)
    requires r.Valid()
    ensures var num := r.Insert(s, ReceivedPacket, ReceivedPacket).num;
            num == r.num || (!r.TooOld(s) && WrappingSub(num, 1) == s)
  {
    AddThenSubtract(s);
  }

  lemma AddThenSubtract(s: u16)
    ensures WrappingSub(WrappingAdd(s, 1), 1) == s
  {
  }

  lemma SendKeepsValid(e: Endpoint, packet: SentPacket)
    requires e.Valid() && e.handler.sequenceNumber != UNUSED
    ensures e.Send(packet).Valid()
  {
  }

  lemma StepKeepsInv(s: System, t: System)
    requires Inv(s) && HereSteps(s, t)
    ensures Inv(t)
  {
    if packet :| HereSends(s, t, packet) {
      AnnounceIsTruthful(s.here);
      SendKeepsValid(s.here, packet);
    } else if h :| h in s.fromThere && t == s.(here := s.here.Receive(h)) {
      ReceiveKeepsValid(s.here, h);
      assert Truthful(h, s.there.accepted);
      assert forall k :: k in s.here.handler.sent ==> k != UNUSED;
    } else {
      DropLostDropsSet(s.here.handler);
    }
  }

  lemma {:induction false} RunKeepsInv(run: seq<System>, i: nat)
    requires IsRun(run) && i < |run|
    ensures Inv(run[i])
  {
    if i > 0 {
      RunKeepsInv(run, i - 1);
      if run[i - 1].here.handler.Valid() && HereSteps(run[i - 1], run[i]) {
        StepKeepsInv(run[i - 1], run[i]);
      } else {
        StepKeepsInv(run[i - 1].Swap(), run[i].Swap());
      }
    }
  }

  /** In every run in which number 65535 stays unused, on any network, a packet removed
      from flight because of an ack or a mask bit was accepted by the other side. */
  lemma AcknowledgedWasAccepted(run: seq<System>, i: nat)
    requires IsRun(run) && i < |run|
    ensures run[i].here.acked <= run[i].there.accepted
    ensures run[i].there.acked <= run[i].here.accepted
  {
    RunKeepsInv(run, i);
  }

  function Idle(): Endpoint { Endpoint(Initial(), {}, {}) }

  /** The header of a side that has received nothing names 65535 and nothing else. */
  lemma IdleNames65535()
    ensures Named(Idle().Announce().ack, Idle().Announce().mask) == {UNUSED}
  {
    var h := Idle().Announce();
    forall i | 0 <= i < 32 ensures !h.mask[i] {
      assert !Initial().received.Exists(Wrap(Initial().RemoteSequenceNum() - (i + 1)));
    }
    assert NamedBelow(h.ack, h.mask, REDUNDANT_PACKET_ACKS_SIZE + 1) == {};
  }

  /** Received by anyone, it acknowledges exactly a packet in flight under number 65535. */
  lemma IdleHeaderAcknowledges(e: Endpoint)
    requires e.handler.Valid()
    ensures e.Receive(Idle().Announce()).acked == e.acked + (e.handler.sent.Keys * {UNUSED})
    ensures e.Receive(Idle().Announce()).handler.sent == e.handler.sent - {UNUSED}
  {
    IdleNames65535();
    IncomingRemovesNamed(e.handler, Idle().Announce().number, Idle().Announce().ack, Idle().Announce().mask);
  }

  /** So a side that has no acknowledgments yet keeps what it believes true of an idle peer, which has
      accepted nothing, exactly when number 65535 is not in flight. */
  lemma IdleHeaderIsSoundIff(e: Endpoint)
    requires e.handler.Valid() && e.acked == {}
    ensures e.Receive(Idle().Announce()).acked <= Idle().accepted <==> UNUSED !in e.handler.sent
  {
    IdleHeaderAcknowledges(e);
  }
}

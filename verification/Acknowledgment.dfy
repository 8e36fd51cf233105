/** The acknowledgment handler: what was sent and not yet acknowledged, and what was received. */
module Acknowledgment {
  import opened Numbers
  import opened Bits
  import opened SerialNumbers
  import opened SequenceBuffer

  const REDUNDANT_PACKET_ACKS_SIZE: nat := 32

  datatype PacketType = Packet | Fragment | Heartbeat

  datatype OrderingGuarantee = Unordered | Sequenced(stream: Option<byte>) | Ordered(stream: Option<byte>) | Unsequenced

  datatype SentPacket = SentPacket(
    packetType: PacketType, payload: bytes, ordering: OrderingGuarantee, item: Option<u16>, sentTime: nat)

  datatype ReceivedPacket = ReceivedPacket

  /** Is the number `s` so far behind the highest acknowledged number that no header can name it any more? */
  predicate IsLost(s: u16, highest: u16) {
    SequenceLessThan(s, highest) && WrappingSub(highest, s) > REDUNDANT_PACKET_ACKS_SIZE
  }

  /** The numbers that a header acknowledges. */
  function Named(ack: u16, mask: Word): set<u16> {
    {ack} + NamedBelow(ack, mask, REDUNDANT_PACKET_ACKS_SIZE + 1)
  }

  /** The numbers that the first `n` - 1 mask bits acknowledge. */
  function NamedBelow(ack: u16, mask: Word, n: nat): set<u16> {
    set i | 1 <= i < n && i <= REDUNDANT_PACKET_ACKS_SIZE && mask[i - 1] :: WrappingSub(ack, i)
  }

  /** `sent` once the first `n` mask bits have been honoured. */
  function Honour(sent: map<u16, SentPacket>, ack: u16, mask: Word, n: nat): map<u16, SentPacket>
    requires n <= REDUNDANT_PACKET_ACKS_SIZE
  {
    if n == 0 then sent
    else
      var before := Honour(sent, ack, mask, n - 1);
      if mask[n - 1] then before - {WrappingSub(ack, n)} else before
  }

  lemma {:induction false} HonourRemovesNamed(sent: map<u16, SentPacket>, ack: u16, mask: Word, n: nat)
    requires n <= REDUNDANT_PACKET_ACKS_SIZE
    ensures Honour(sent, ack, mask, n) == sent - NamedBelow(ack, mask, n + 1)
    decreases n
  {
    if n == 0 {
      assert NamedBelow(ack, mask, 1) == {};
    } else {
      HonourRemovesNamed(sent, ack, mask, n - 1);
      NamedOneMore(ack, mask, n);
      RemoveTwice(sent, NamedBelow(ack, mask, n), {WrappingSub(ack, n)});
    }
  }

  /** An incoming header removes from flight exactly the packets it names. */
  lemma IncomingRemovesNamed(h: Handler, s: u16, ack: u16, mask: Word)
    requires h.Valid()
    ensures h.Incoming(s, ack, mask).sent == h.sent - Named(ack, mask)
  {
    HonourRemovesNamed(h.sent - {ack}, ack, mask, REDUNDANT_PACKET_ACKS_SIZE);
    RemoveTwice(h.sent, {ack}, NamedBelow(ack, mask, REDUNDANT_PACKET_ACKS_SIZE + 1));
  }

  lemma NamedOneMore(ack: u16, mask: Word, n: nat)
    requires 1 <= n <= REDUNDANT_PACKET_ACKS_SIZE
    ensures NamedBelow(ack, mask, n + 1) ==
      if mask[n - 1] then NamedBelow(ack, mask, n) + {WrappingSub(ack, n)} else NamedBelow(ack, mask, n)
  {
  }

  /** The state of a handler; of congestion control only the three event counters are kept. */
  datatype Handler = Handler(
    sequenceNumber: u16, highestAck: u16, sent: map<u16, SentPacket>, received: Ring<ReceivedPacket>,
    rttSamples: nat, sentCount: nat, lostCount: nat)
  {
    predicate Valid() { received.Valid() && |received.slots| == REDUNDANT_PACKET_ACKS_SIZE + 1 }

    function RemoteSequenceNum(): u16 { WrappingSub(received.num, 1) }

    /** Entry i-1 says whether the number i before the newest is in the ring. */
    function AckBitfield(): Word
      requires Valid()
    {
      seq(32, i requires 0 <= i < 32 => received.Exists(Wrap(RemoteSequenceNum() - (i + 1))))
    }

    function Incoming(s: u16, ack: u16, mask: Word): (h: Handler)
      requires Valid()
      ensures h.Valid()
    {
      var left := Honour(sent - {ack}, ack, mask, REDUNDANT_PACKET_ACKS_SIZE);
      this.(highestAck := if SequenceGreaterThan(ack, highestAck) then ack else highestAck,
            received := received.Insert(s, ReceivedPacket, ReceivedPacket),
            sent := left,
            rttSamples := rttSamples + SaturatingSub(|sent|, |left|))
    }

    function Outgoing(packet: SentPacket): Handler {
      this.(sent := sent[sequenceNumber := packet],
            sentCount := sentCount + 1,
            sequenceNumber := WrappingAdd(sequenceNumber, 1))
    }

    function Lost(): set<u16> { set s | s in sent && IsLost(s, highestAck) }

    function DropLost(): Handler {
      var (left, taken) := Purge(sent, Sorted(sent.Keys), LostTest(highestAck));
      this.(sent := left, lostCount := lostCount + |taken|)
    }
  }

  function Initial(): (h: Handler)
    ensures h.Valid()
  {
    Handler(0, 65535, map[], Empty(REDUNDANT_PACKET_ACKS_SIZE + 1, ReceivedPacket), 0, 0, 0)
  }

  /** Nothing that a header at the highest acknowledged number can name is ever lost. */
  lemma NamedIsNotLost(highest: u16, mask: Word, s: u16)
    requires s in Named(highest, mask)
    ensures !IsLost(s, highest)
  {
    if s != highest {
      var i :| 1 <= i <= REDUNDANT_PACKET_ACKS_SIZE && s == WrappingSub(highest, i);
      CloseIsNotLost(highest, i);
    }
  }

  lemma CloseIsNotLost(highest: u16, i: nat)
    requires i <= REDUNDANT_PACKET_ACKS_SIZE
    ensures !IsLost(WrappingSub(highest, i), highest)
  {
    WrapHomomorphic(highest, highest - i);
    assert WrappingSub(highest, WrappingSub(highest, i)) == i;
  }

  // ----- sets of numbers in ascending order -----

  /** The members of `s` below `n`, in ascending order. */
  function KeysBelow(s: set<u16>, n: nat): seq<u16>
    requires n <= 0x1_0000
    decreases s, n
  {
    if n == 0 then [] else if n - 1 in s then KeysBelow(s, n - 1) + [n - 1] else KeysBelow(s, n - 1)
  }

  /** `sort_unstable` on the keys. */
  function Sorted(s: set<u16>): seq<u16> { KeysBelow(s, 0x1_0000) }

  function Chosen(keys: seq<u16>, lost: u16 -> bool): set<u16> { set k | k in keys && lost(k) }

  function LostTest(highest: u16): u16 -> bool { (s: u16) => IsLost(s, highest) }

  /** What is left, and what was taken out in which order, once the lost packets among `keys` are removed. */
  function Purge(sent: map<u16, SentPacket>, keys: seq<u16>, lost: u16 -> bool)
    : (map<u16, SentPacket>, seq<SentPacket>)
  {
    if keys == [] then (sent, [])
    else
      var (left, taken) := Purge(sent, keys[..|keys| - 1], lost);
      var k := keys[|keys| - 1];
      if lost(k) && k in left then (left - {k}, taken + [left[k]]) else (left, taken)
  }

  lemma {:induction false} KeysBelowMembers(s: set<u16>, n: nat)
    requires n <= 0x1_0000
    ensures forall k :: k in KeysBelow(s, n) <==> k in s && k < n
    ensures forall i, j :: 0 <= i < j < |KeysBelow(s, n)| ==> KeysBelow(s, n)[i] < KeysBelow(s, n)[j]
    decreases n
  {
    if n > 0 {
      KeysBelowMembers(s, n - 1);
      var below := KeysBelow(s, n - 1);
      assert forall i :: 0 <= i < |below| ==> below[i] in below;
    }
  }

  lemma ChosenOneMore(keys: seq<u16>, lost: u16 -> bool)
    requires keys != []
    requires forall i, j :: 0 <= i < j < |keys| ==> keys[i] != keys[j]
    ensures
      var front, k := keys[..|keys| - 1], keys[|keys| - 1];
      && k in keys && (forall s :: s in front ==> s in keys)
      && k !in Chosen(front, lost)
      && Chosen(keys, lost) == if lost(k) then Chosen(front, lost) + {k} else Chosen(front, lost)
  {
    assert keys == keys[..|keys| - 1] + [keys[|keys| - 1]];
  }

  /** Dropping the lost packets among `keys`, in that order, is dropping their set, each once. */
  lemma {:induction false} PurgeDropsLost(sent: map<u16, SentPacket>, keys: seq<u16>, lost: u16 -> bool)
    requires forall k :: k in keys ==> k in sent
    requires forall i, j :: 0 <= i < j < |keys| ==> keys[i] != keys[j]
    ensures Purge(sent, keys, lost).0 == sent - Chosen(keys, lost)
    ensures |Purge(sent, keys, lost).1| == |Chosen(keys, lost)|
    decreases |keys|
  {
    if keys != [] {
      var front, k := keys[..|keys| - 1], keys[|keys| - 1];
      PurgeDropsLost(sent, front, lost);
      ChosenOneMore(keys, lost);
      RemoveTwice(sent, Chosen(front, lost), {k});
    }
  }

  lemma DropLostDropsSet(h: Handler)
    ensures h.DropLost().sent == h.sent - h.Lost()
    ensures h.DropLost().lostCount == h.lostCount + |h.Lost()|
  {
    var keys := Sorted(h.sent.Keys);
    KeysBelowMembers(h.sent.Keys, 0x1_0000);
    PurgeDropsLost(h.sent, keys, LostTest(h.highestAck));
    assert Chosen(keys, LostTest(h.highestAck)) == h.Lost();
  }

  /** Purging returns, for ascending names that are exactly the lost ones, the packets under them. */
  ghost predicate Returns(sent: map<u16, SentPacket>, names: seq<u16>, taken: seq<SentPacket>) {
    && |taken| == |names|
    && (forall i :: 0 <= i < |names| ==> names[i] in sent && taken[i] == sent[names[i]])
    && (forall i, j :: 0 <= i < j < |names| ==> names[i] < names[j])
  }

  lemma {:induction false} PurgeReturns(sent: map<u16, SentPacket>, keys: seq<u16>, lost: u16 -> bool)
    returns (names: seq<u16>)
    requires forall k :: k in keys ==> k in sent
    requires forall i, j :: 0 <= i < j < |keys| ==> keys[i] < keys[j]
    ensures Returns(sent, names, Purge(sent, keys, lost).1) && forall k :: k in names <==> k in Chosen(keys, lost)
    decreases |keys|
  {
    if keys == [] {
      names := [];
    } else {
      var front, k := keys[..|keys| - 1], keys[|keys| - 1];
      names := PurgeReturns(sent, front, lost);
      PurgeDropsLost(sent, front, lost);
      ChosenOneMore(keys, lost);
      if lost(k) {
        forall i | 0 <= i < |names| ensures names[i] < k {
          assert names[i] in names && names[i] in front;
        }
        ReturnsOneMore(sent, names, Purge(sent, front, lost).1, k);
        names := names + [k];
      }
    }
  }

  lemma ReturnsOneMore(sent: map<u16, SentPacket>, names: seq<u16>, taken: seq<SentPacket>, k: u16)
    requires Returns(sent, names, taken) && k in sent && forall i :: 0 <= i < |names| ==> names[i] < k
    ensures Returns(sent, names + [k], taken + [sent[k]])
  {
  }

  /** The packets returned as dropped, in the order of their numbers: exactly those in flight that count as lost. */
  lemma DroppedAreReturned(h: Handler) returns (names: seq<u16>)
    ensures Returns(h.sent, names, Purge(h.sent, Sorted(h.sent.Keys), LostTest(h.highestAck)).1)
    ensures forall k :: k in names <==> k in h.Lost()
  {
    KeysBelowMembers(h.sent.Keys, 0x1_0000);
    names := PurgeReturns(h.sent, Sorted(h.sent.Keys), LostTest(h.highestAck));
    assert Chosen(Sorted(h.sent.Keys), LostTest(h.highestAck)) == h.Lost();
  }

  lemma RemoveTwice<K, V>(m: map<K, V>, a: set<K>, b: set<K>)
    ensures (m - a) - b == m - (a + b)
  {
  }

  class AcknowledgmentHandler {
    var sequenceNumber: u16
    var remoteAckSequenceNum: u16
    var sentPackets: map<u16, SentPacket>
    const receivedPackets: SequenceBuffer<ReceivedPacket>
    // counted events of the congestion control
    var rttSamples: nat
    var sentCount: nat
    var lostCount: nat

    ghost function State(): Handler
      reads this, receivedPackets, receivedPackets.entrySequences, receivedPackets.entries
    {
      Handler(sequenceNumber, remoteAckSequenceNum, sentPackets, receivedPackets.Contents(),
              rttSamples, sentCount, lostCount)
    }

    ghost predicate Valid()
      reads this, receivedPackets, receivedPackets.entrySequences, receivedPackets.entries
    {
      && receivedPackets.Valid()
      && State().Valid()
    }

    constructor ()
      ensures Valid() && State() == Initial()
      ensures fresh(receivedPackets) && fresh(receivedPackets.entrySequences) && fresh(receivedPackets.entries)
    {
      sequenceNumber := 0;
      remoteAckSequenceNum := 65535;
      sentPackets := map[];
      receivedPackets := new SequenceBuffer.WithCapacity(REDUNDANT_PACKET_ACKS_SIZE + 1, ReceivedPacket);
      rttSamples, sentCount, lostCount := 0, 0, 0;
    }

    method RemoteSequenceNum() returns (s: u16)
      requires Valid()
      ensures s == State().RemoteSequenceNum()
    {
      s := WrappingSub(receivedPackets.sequenceNum, 1);
    }

    method AckBitfield() returns (ackBitfield: Word)
      requires Valid()
      ensures ackBitfield == State().AckBitfield()
    {
      ghost var goal := State().AckBitfield();
      var mostRecent := RemoteSequenceNum();
      ackBitfield := Zero();
      var mask: Word := One();
      for i := 1 to REDUNDANT_PACKET_ACKS_SIZE + 1
        invariant forall j :: 0 <= j < 32 ==> mask[j] == (j == i - 1)
        invariant forall j :: 0 <= j < 32 ==> ackBitfield[j] == (j < i - 1 && goal[j])
      {
        var found := receivedPackets.Exists(WrappingSub(mostRecent, i));
        assert found == goal[i - 1];
        if found {
          ackBitfield := Or(ackBitfield, mask);
        }
        mask := Shl(mask, 1);
      }
    }

    /** Forgets `s` if it was in flight, which gives congestion control one round-trip sample. */
    method Acknowledge(s: u16)
      modifies this`sentPackets, this`rttSamples
      ensures sentPackets == old(sentPackets) - {s}
      ensures rttSamples - old(rttSamples) == |old(sentPackets)| - |sentPackets| >= 0
    {
      if s in sentPackets {
        assert sentPackets.Keys == (sentPackets - {s}).Keys + {s};
        sentPackets := sentPackets - {s};
        rttSamples := rttSamples + 1;
      }
    }

    /** The source runs this loop inside `process_incoming`. */
    method AcknowledgeField(ack: u16, mask: Word)
      modifies this`sentPackets, this`rttSamples
      ensures sentPackets == Honour(old(sentPackets), ack, mask, REDUNDANT_PACKET_ACKS_SIZE)
      ensures rttSamples - old(rttSamples) == |old(sentPackets)| - |sentPackets| >= 0
    {
      var field := mask;
      ShrNone(mask);
      for i := 1 to REDUNDANT_PACKET_ACKS_SIZE + 1
        invariant field == Shr(mask, i - 1)
        invariant sentPackets == Honour(old(sentPackets), ack, mask, i - 1)
        invariant rttSamples - old(rttSamples) == |old(sentPackets)| - |sentPackets| >= 0
      {
        var ackSequence := WrappingSub(ack, i);
        TestLowBit(field);
        ShrShr(mask, i - 1);
        if And(field, One()) == One() {
          Acknowledge(ackSequence);
        }
        field := Shr(field, 1);
      }
    }

    method ProcessIncoming(remoteSeqNum: u16, remoteAckSeq: u16, remoteAckField: Word)
      requires Valid()
      modifies this, receivedPackets, receivedPackets.entrySequences, receivedPackets.entries
      ensures Valid()
      ensures State() == old(State()).Incoming(remoteSeqNum, remoteAckSeq, remoteAckField)
    {
      if SequenceGreaterThan(remoteAckSeq, remoteAckSequenceNum) {
        remoteAckSequenceNum := remoteAckSeq;
      }
      assert receivedPackets.zero == ReceivedPacket;
      var _ := receivedPackets.Insert(remoteSeqNum, ReceivedPacket);
      ghost var ring := receivedPackets.Contents();
      assert ring == old(receivedPackets.Contents()).Insert(remoteSeqNum, ReceivedPacket, ReceivedPacket);
      Acknowledge(remoteAckSeq);
      AcknowledgeField(remoteAckSeq, remoteAckField);
      assert receivedPackets.Contents() == ring;
    }

    method ProcessOutgoing(packet: SentPacket)
      requires Valid()
      modifies this
      ensures Valid()
      ensures State() == old(State()).Outgoing(packet)
    {
      sentPackets := sentPackets[sequenceNumber := packet];
      sentCount := sentCount + 1;
      sequenceNumber := WrappingAdd(sequenceNumber, 1);
    }

    method DroppedPackets() returns (dropped: seq<SentPacket>)
      requires Valid()
      modifies this
      ensures Valid()
      ensures State() == old(State()).DropLost()
      ensures dropped == Purge(old(sentPackets), Sorted(old(sentPackets).Keys), LostTest(remoteAckSequenceNum)).1
    {
      var sequences := Sorted(sentPackets.Keys);
      ghost var lost := LostTest(remoteAckSequenceNum);
      dropped := [];
      for i := 0 to |sequences|
        invariant (sentPackets, dropped) == Purge(old(sentPackets), sequences[..i], lost)
        invariant State() == old(State()).(sent := sentPackets)
      {
        var s := sequences[i];
        assert sequences[..i + 1][..i] == sequences[..i];
        assert lost(s) == IsLost(s, remoteAckSequenceNum);
        if IsLost(s, remoteAckSequenceNum) && s in sentPackets {
          dropped := dropped + [sentPackets[s]];
          sentPackets := sentPackets - {s};
        }
      }
      assert sequences[..|sequences|] == sequences;
      lostCount := lostCount + |dropped|;
    }
  }
}

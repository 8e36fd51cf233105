/** Decoding undoes encoding, and exactly when. */
module Codec {
  import opened Numbers
  import opened Wire
  import opened Command
  import opened Records
  import opened Encoder
  import opened Decoder

  lemma EncodedSize(c: Command)
    ensures |EncodeCommand(c)| == c.WireSize() >= 4
  {
  }

  lemma SendReliableRoundTrip(channelId: byte, number: u16, ordered: bool, data: bytes)
    requires |data| < 0x1_0000
    ensures
      var c := SendReliable(channelId, number, ordered, data);
      GetSendReliable(Body(c)) == Ok((c, []))
  {
    GetPutU8(channelId, Be16(number) + ([Flag(ordered)] + Sized(data)));
    GetPutU16(number, [Flag(ordered)] + Sized(data));
    GetPutU8(Flag(ordered), Sized(data));
    assert Sized(data) == Sized(data) + [];
    GetPutSized(data, []);
  }

  lemma SendUnreliableRoundTrip(channelId: byte, data: bytes)
    requires |data| < 0x1_0000
    ensures GetSendUnreliable(Body(SendUnreliable(channelId, data))) == Ok((SendUnreliable(channelId, data), []))
  {
    GetPutU8(channelId, Sized(data));
    assert Sized(data) == Sized(data) + [];
    GetPutSized(data, []);
  }

  lemma SendUnreliableSequencedRoundTrip(channelId: byte, number: u16, data: bytes)
    requires |data| < 0x1_0000
    ensures
      var c := SendUnreliableSequenced(channelId, number, data);
      GetSendUnreliableSequenced(Body(c)) == Ok((c, []))
  {
    GetPutU8(channelId, Be16(number) + Sized(data));
    GetPutU16(number, Sized(data));
    assert Sized(data) == Sized(data) + [];
    GetPutSized(data, []);
  }

  lemma SendUnsequencedRoundTrip(channelId: byte, unsequencedGroup: u16, data: bytes)
    requires |data| < 0x1_0000
    ensures
      var c := SendUnsequenced(channelId, unsequencedGroup, data);
      GetSendUnsequenced(Body(c)) == Ok((c, []))
  {
    GetPutU8(channelId, Be16(unsequencedGroup) + Sized(data));
    GetPutU16(unsequencedGroup, Sized(data));
    assert Sized(data) == Sized(data) + [];
    GetPutSized(data, []);
  }

  lemma SendFragmentRoundTrip(
    channelId: byte, number: u16, ordered: bool, fragmentId: byte, fragmentCount: byte, data: bytes)
    requires |data| < 0x1_0000
    ensures
      var c := SendFragment(channelId, number, ordered, fragmentId, fragmentCount, data);
      GetSendFragment(Body(c)) == Ok((c, []))
  {
    GetPutU8(channelId, Be16(number) + ([Flag(ordered)] + ([fragmentId] + ([fragmentCount] + Sized(data)))));
    GetPutU16(number, [Flag(ordered)] + ([fragmentId] + ([fragmentCount] + Sized(data))));
    GetPutU8(Flag(ordered), [fragmentId] + ([fragmentCount] + Sized(data)));
    GetPutU8(fragmentId, [fragmentCount] + Sized(data));
    GetPutU8(fragmentCount, Sized(data));
    assert Sized(data) == Sized(data) + [];
    GetPutSized(data, []);
  }

  lemma SendUnreliableFragmentRoundTrip(
    channelId: byte, number: u16, fragmentId: byte, fragmentCount: byte, data: bytes)
    requires |data| < 0x1_0000
    ensures
      var c := SendUnreliableFragment(channelId, number, fragmentId, fragmentCount, data);
      GetSendUnreliableFragment(Body(c)) == Ok((c, []))
  {
    GetPutU8(channelId, Be16(number) + ([fragmentId] + ([fragmentCount] + Sized(data))));
    GetPutU16(number, [fragmentId] + ([fragmentCount] + Sized(data)));
    GetPutU8(fragmentId, [fragmentCount] + Sized(data));
    GetPutU8(fragmentCount, Sized(data));
    assert Sized(data) == Sized(data) + [];
    GetPutSized(data, []);
  }

  lemma AcknowledgeRoundTrip(number: u16, receivedMask: u32, sentTime: Option<u32>)
    ensures
      var c := Acknowledge(number, receivedMask, sentTime);
      GetAcknowledge(Body(c)) == Ok((c, []))
  {
    var tail := if sentTime.Some? then Be32(sentTime.value) else [];
    GetPutU16(number, Be32(receivedMask) + tail);
    GetPutU32(receivedMask, tail);
    if sentTime.Some? {
      assert tail == tail + [];
      GetPutU32(sentTime.value, []);
    }
  }

  lemma PingRoundTrip(timestamp: u32)
    ensures GetPing(Body(Ping(timestamp))) == Ok((Ping(timestamp), []))
  {
    assert Be32(timestamp) == Be32(timestamp) + [];
    GetPutU32(timestamp, []);
  }

  lemma PongRoundTrip(timestamp: u32)
    ensures GetPong(Body(Pong(timestamp))) == Ok((Pong(timestamp), []))
  {
    assert Be32(timestamp) == Be32(timestamp) + [];
    GetPutU32(timestamp, []);
  }

  lemma ConnectRoundTrip(channels: byte, mtu: u16, protocolVersion: u16, outgoingSessionId: u16, connectId: u32)
    ensures
      var c := Connect(channels, mtu, protocolVersion, outgoingSessionId, connectId);
      GetConnect(Body(c)) == Ok((c, []))
  {
    GetPutU8(channels, Be16(mtu) + (Be16(protocolVersion) + (Be16(outgoingSessionId) + Be32(connectId))));
    GetPutU16(mtu, Be16(protocolVersion) + (Be16(outgoingSessionId) + Be32(connectId)));
    GetPutU16(protocolVersion, Be16(outgoingSessionId) + Be32(connectId));
    GetPutU16(outgoingSessionId, Be32(connectId));
    assert Be32(connectId) == Be32(connectId) + [];
    GetPutU32(connectId, []);
  }

  lemma VerifyConnectRoundTrip(
    peerId: u16, channels: byte, mtu: u16, incomingSessionId: u16, outgoingSessionId: u16, windowSize: u32)
    ensures
      var c := VerifyConnect(peerId, channels, mtu, incomingSessionId, outgoingSessionId, windowSize);
      GetVerifyConnect(Body(c)) == Ok((c, []))
  {
    GetPutU16(
      peerId, [channels] + (Be16(mtu) + (Be16(incomingSessionId) + (Be16(outgoingSessionId) + Be32(windowSize)))));
    GetPutU8(channels, Be16(mtu) + (Be16(incomingSessionId) + (Be16(outgoingSessionId) + Be32(windowSize))));
    GetPutU16(mtu, Be16(incomingSessionId) + (Be16(outgoingSessionId) + Be32(windowSize)));
    GetPutU16(incomingSessionId, Be16(outgoingSessionId) + Be32(windowSize));
    GetPutU16(outgoingSessionId, Be32(windowSize));
    assert Be32(windowSize) == Be32(windowSize) + [];
    GetPutU32(windowSize, []);
  }

  lemma DisconnectRoundTrip(reason: u32)
    ensures GetDisconnect(Body(Disconnect(reason))) == Ok((Disconnect(reason), []))
  {
    assert Be32(reason) == Be32(reason) + [];
    GetPutU32(reason, []);
  }

  lemma BandwidthLimitRoundTrip(incoming: u32, outgoing: u32)
    ensures GetBandwidthLimit(Body(BandwidthLimit(incoming, outgoing))) == Ok((BandwidthLimit(incoming, outgoing), []))
  {
    GetPutU32(incoming, Be32(outgoing));
    assert Be32(outgoing) == Be32(outgoing) + [];
    GetPutU32(outgoing, []);
  }

  lemma ThrottleConfigureRoundTrip(interval: u32, acceleration: u32, deceleration: u32)
    ensures
      var c := ThrottleConfigure(interval, acceleration, deceleration);
      GetThrottleConfigure(Body(c)) == Ok((c, []))
  {
    GetPutU32(interval, Be32(acceleration) + Be32(deceleration));
    GetPutU32(acceleration, Be32(deceleration));
    assert Be32(deceleration) == Be32(deceleration) + [];
    GetPutU32(deceleration, []);
  }

  lemma PMTUProbeRoundTrip(size: u16, token: u32, payload: bytes)
    requires |payload| < 0x1_0000
    ensures GetPMTUProbe(Body(PMTUProbe(size, token, payload))) == Ok((PMTUProbe(size, token, payload), []))
  {
    GetPutU16(size, Be32(token) + Sized(payload));
    GetPutU32(token, Sized(payload));
    assert Sized(payload) == Sized(payload) + [];
    GetPutSized(payload, []);
  }

  lemma PMTUReplyRoundTrip(size: u16, token: u32)
    ensures GetPMTUReply(Body(PMTUReply(size, token))) == Ok((PMTUReply(size, token), []))
  {
    GetPutU16(size, Be32(token));
    assert Be32(token) == Be32(token) + [];
    GetPutU32(token, []);
  }

  lemma DataBodyRoundTrip(c: Command)
    requires |EncodeCommand(c)| < 0x1_0000 && c.CommandType() <= 6
    ensures GetBody(c.CommandType(), Body(c)) == Ok((c, []))
  {
    EncodedSize(c);
    match c {
      case SendReliable(channelId, number, ordered, data) => SendReliableRoundTrip(channelId, number, ordered, data);
      case SendUnreliable(channelId, data) => SendUnreliableRoundTrip(channelId, data);
      case SendUnreliableSequenced(channelId, number, data) =>
        SendUnreliableSequencedRoundTrip(channelId, number, data);
      case SendUnsequenced(channelId, unsequencedGroup, data) =>
        SendUnsequencedRoundTrip(channelId, unsequencedGroup, data);
      case SendFragment(channelId, number, ordered, fragmentId, fragmentCount, data) =>
        SendFragmentRoundTrip(channelId, number, ordered, fragmentId, fragmentCount, data);
      case SendUnreliableFragment(channelId, number, fragmentId, fragmentCount, data) =>
        SendUnreliableFragmentRoundTrip(channelId, number, fragmentId, fragmentCount, data);
    }
  }

  lemma SessionBodyRoundTrip(c: Command)
    requires 6 < c.CommandType() <= 11
    ensures GetBody(c.CommandType(), Body(c)) == Ok((c, []))
  {
    match c {
      case Acknowledge(number, receivedMask, sentTime) => AcknowledgeRoundTrip(number, receivedMask, sentTime);
      case Ping(timestamp) => PingRoundTrip(timestamp);
      case Pong(timestamp) => PongRoundTrip(timestamp);
      case Connect(channels, mtu, protocolVersion, outgoingSessionId, connectId) =>
        ConnectRoundTrip(channels, mtu, protocolVersion, outgoingSessionId, connectId);
      case VerifyConnect(peerId, channels, mtu, incomingSessionId, outgoingSessionId, windowSize) =>
        VerifyConnectRoundTrip(peerId, channels, mtu, incomingSessionId, outgoingSessionId, windowSize);
    }
  }

  lemma ControlBodyRoundTrip(c: Command)
    requires |EncodeCommand(c)| < 0x1_0000 && 11 < c.CommandType()
    ensures GetBody(c.CommandType(), Body(c)) == Ok((c, []))
  {
    EncodedSize(c);
    match c {
      case Disconnect(reason) => DisconnectRoundTrip(reason);
      case BandwidthLimit(incoming, outgoing) => BandwidthLimitRoundTrip(incoming, outgoing);
      case ThrottleConfigure(interval, acceleration, deceleration) =>
        ThrottleConfigureRoundTrip(interval, acceleration, deceleration);
      case PMTUProbe(size, token, payload) => PMTUProbeRoundTrip(size, token, payload);
      case PMTUReply(size, token) => PMTUReplyRoundTrip(size, token);
    }
  }

  /** A command is parsed back from exactly its own bytes, the optional send time of an
      acknowledgment included, when its payload's length fits its 16-bit field. */
  lemma CommandRoundTrip(c: Command)
    requires |EncodeCommand(c)| < 0x1_0000
    ensures GetCommand(EncodeCommand(c)) == Ok((c, []))
  {
    GetPutU8(c.CommandType(), Body(c));
    if c.CommandType() <= 6 {
      DataBodyRoundTrip(c);
    } else if c.CommandType() <= 11 {
      SessionBodyRoundTrip(c);
    } else {
      ControlBodyRoundTrip(c);
    }
  }

  predicate Encodable(c: Command) { c.WireSize() < 0x1_0000 }

  lemma EncodableRoundTrips(c: Command)
    requires Encodable(c)
    ensures RoundTrips(EncodeCommand, GetCommand, c)
  {
    EncodedSize(c);
    CommandRoundTrip(c);
  }

  lemma PacketRoundTrip(cs: seq<Command>)
    requires |cs| <= 255 && forall i :: 0 <= i < |cs| ==> Encodable(cs[i])
    ensures DecodePacket(EncodePacket(cs)) == Ok(cs)
  {
    forall i | 0 <= i < |cs| ensures RoundTrips(EncodeCommand, GetCommand, cs[i]) {
      EncodableRoundTrips(cs[i]);
    }
    PacketOfRecordsRoundTrip(EncodeCommand, GetCommand, cs);
  }

  /** A packet survives the wire exactly when its count fits in one byte and each command in 65535. */
  lemma PacketRoundTripIff(cs: seq<Command>)
    ensures DecodePacket(EncodePacket(cs)) == Ok(cs) <==>
      |cs| <= 255 && forall i :: 0 <= i < |cs| ==> Encodable(cs[i])
  {
    if DecodePacket(EncodePacket(cs)) == Ok(cs) {
      var size := (c: Command) => c.WireSize();
      ReadBackIsSmall(EncodeCommand, GetCommand, size, cs);
      assert forall i :: 0 <= i < |cs| ==> size(cs[i]) < 0x1_0000;
    } else if |cs| <= 255 && forall i :: 0 <= i < |cs| ==> Encodable(cs[i]) {
      PacketRoundTrip(cs);
    }
  }

  /** The size of a packet: one byte of count, and two of length per command. */
  lemma {:induction false} PacketSize(cs: seq<Command>)
    ensures |EncodePacket(cs)| == 1 + TotalSize(cs)
    decreases |cs|
  {
    if cs != [] {
      PacketSize(cs[1..]);
      EncodedSize(cs[0]);
    }
  }

  function TotalSize(cs: seq<Command>): nat {
    if cs == [] then 0 else 2 + cs[0].WireSize() + TotalSize(cs[1..])
  }
}

/** Serialisation of commands and packets. */
module Encoder {
  import opened Numbers
  import opened Wire
  import opened Command
  import opened Records

  function Flag(b: bool): byte { if b then 1 else 0 }

  /** What follows the type byte. */
  function Body(c: Command): bytes {
    match c
    case SendReliable(channelId, number, ordered, data) =>
      [channelId] + (Be16(number) + ([Flag(ordered)] + Sized(data)))
    case SendUnreliable(channelId, data) =>
      [channelId] + Sized(data)
    case SendUnreliableSequenced(channelId, number, data) =>
      [channelId] + (Be16(number) + Sized(data))
    case SendUnsequenced(channelId, unsequencedGroup, data) =>
      [channelId] + (Be16(unsequencedGroup) + Sized(data))
    case SendFragment(channelId, number, ordered, fragmentId, fragmentCount, data) =>
      [channelId] + (Be16(number) + ([Flag(ordered)] + ([fragmentId] + ([fragmentCount] + Sized(data)))))
    case SendUnreliableFragment(channelId, number, fragmentId, fragmentCount, data) =>
      [channelId] + (Be16(number) + ([fragmentId] + ([fragmentCount] + Sized(data))))
    case Acknowledge(number, receivedMask, sentTime) =>
      Be16(number) + (Be32(receivedMask) + if sentTime.Some? then Be32(sentTime.value) else [])
    case Ping(timestamp) =>
      Be32(timestamp)
    case Pong(timestamp) =>
      Be32(timestamp)
    case Connect(channels, mtu, protocolVersion, outgoingSessionId, connectId) =>
      [channels] + (Be16(mtu) + (Be16(protocolVersion) + (Be16(outgoingSessionId) + Be32(connectId))))
    case VerifyConnect(peerId, channels, mtu, incomingSessionId, outgoingSessionId, windowSize) =>
      Be16(peerId)
      + ([channels] + (Be16(mtu) + (Be16(incomingSessionId) + (Be16(outgoingSessionId) + Be32(windowSize)))))
    case Disconnect(reason) =>
      Be32(reason)
    case BandwidthLimit(incoming, outgoing) =>
      Be32(incoming) + Be32(outgoing)
    case ThrottleConfigure(interval, acceleration, deceleration) =>
      Be32(interval) + (Be32(acceleration) + Be32(deceleration))
    case PMTUProbe(size, token, payload) =>
      Be16(size) + (Be32(token) + Sized(payload))
    case PMTUReply(size, token) =>
      Be16(size) + Be32(token)
  }

  function EncodeCommand(c: Command): bytes { [c.CommandType()] + Body(c) }

  /** The count and the length prefixes are cut to 8 and 16 bits. */
  function EncodePacket(cs: seq<Command>): bytes { PutPacket(EncodeCommand, cs) }

  // Bytes appended one field after another, regrouped.

  lemma Regroup2(p: bytes, a: bytes, b: bytes)
    ensures p + a + b == p + (a + b)
  {
  }

  lemma Regroup3(p: bytes, a: bytes, b: bytes, c: bytes)
    ensures p + a + b + c == p + (a + (b + c))
  {
    Regroup2(p + a, b, c);
    Regroup2(p, a, b + c);
  }

  lemma Regroup4(p: bytes, a: bytes, b: bytes, c: bytes, d: bytes)
    ensures p + a + b + c + d == p + (a + (b + (c + d)))
  {
    Regroup3(p + a, b, c, d);
    Regroup2(p, a, b + (c + d));
  }

  lemma Regroup5(p: bytes, a: bytes, b: bytes, c: bytes, d: bytes, e: bytes)
    ensures p + a + b + c + d + e == p + (a + (b + (c + (d + e))))
  {
    Regroup4(p + a, b, c, d, e);
    Regroup2(p, a, b + (c + (d + e)));
  }

  lemma Regroup6(p: bytes, a: bytes, b: bytes, c: bytes, d: bytes, e: bytes, f: bytes)
    ensures p + a + b + c + d + e + f == p + (a + (b + (c + (d + (e + f)))))
  {
    Regroup5(p + a, b, c, d, e, f);
    Regroup2(p, a, b + (c + (d + (e + f))));
  }

  /** Appends the type byte and the body to `buffer`. */
  method EncodeCommandInto(buffer: Buffer, c: Command)
    modifies buffer
    ensures buffer.data == old(buffer.data) + EncodeCommand(c)
  {
    buffer.WriteU8(c.CommandType());
    ghost var start := buffer.data;
    match c {
      case SendReliable(channelId, number, ordered, data) =>
        Regroup4(start, [channelId], Be16(number), [Flag(ordered)], Sized(data));
        buffer.WriteU8(channelId);
        buffer.WriteU16(number);
        buffer.WriteU8(Flag(ordered));
        buffer.WriteSized(data);
      case SendUnreliable(channelId, data) =>
        Regroup2(start, [channelId], Sized(data));
        buffer.WriteU8(channelId);
        buffer.WriteSized(data);
      case SendUnreliableSequenced(channelId, number, data) =>
        Regroup3(start, [channelId], Be16(number), Sized(data));
        buffer.WriteU8(channelId);
        buffer.WriteU16(number);
        buffer.WriteSized(data);
      case SendUnsequenced(channelId, unsequencedGroup, data) =>
        Regroup3(start, [channelId], Be16(unsequencedGroup), Sized(data));
        buffer.WriteU8(channelId);
        buffer.WriteU16(unsequencedGroup);
        buffer.WriteSized(data);
      case SendFragment(channelId, number, ordered, fragmentId, fragmentCount, data) =>
        Regroup6(start, [channelId], Be16(number), [Flag(ordered)], [fragmentId], [fragmentCount], Sized(data));
        buffer.WriteU8(channelId);
        buffer.WriteU16(number);
        buffer.WriteU8(Flag(ordered));
        buffer.WriteU8(fragmentId);
        buffer.WriteU8(fragmentCount);
        buffer.WriteSized(data);
      case SendUnreliableFragment(channelId, number, fragmentId, fragmentCount, data) =>
        Regroup5(start, [channelId], Be16(number), [fragmentId], [fragmentCount], Sized(data));
        buffer.WriteU8(channelId);
        buffer.WriteU16(number);
        buffer.WriteU8(fragmentId);
        buffer.WriteU8(fragmentCount);
        buffer.WriteSized(data);
      case Acknowledge(number, receivedMask, sentTime) =>
        Regroup3(start, Be16(number), Be32(receivedMask), if sentTime.Some? then Be32(sentTime.value) else []);
        buffer.WriteU16(number);
        buffer.WriteU32(receivedMask);
        if sentTime.Some? {
          buffer.WriteU32(sentTime.value);
        }
      case Ping(timestamp) =>
        buffer.WriteU32(timestamp);
      case Pong(timestamp) =>
        buffer.WriteU32(timestamp);
      case Connect(channels, mtu, protocolVersion, outgoingSessionId, connectId) =>
        Regroup5(start, [channels], Be16(mtu), Be16(protocolVersion), Be16(outgoingSessionId), Be32(connectId));
        buffer.WriteU8(channels);
        buffer.WriteU16(mtu);
        buffer.WriteU16(protocolVersion);
        buffer.WriteU16(outgoingSessionId);
        buffer.WriteU32(connectId);
      case VerifyConnect(peerId, channels, mtu, incomingSessionId, outgoingSessionId, windowSize) =>
        Regroup6(start, Be16(peerId), [channels], Be16(mtu), Be16(incomingSessionId), Be16(outgoingSessionId),
                 Be32(windowSize));
        buffer.WriteU16(peerId);
        buffer.WriteU8(channels);
        buffer.WriteU16(mtu);
        buffer.WriteU16(incomingSessionId);
        buffer.WriteU16(outgoingSessionId);
        buffer.WriteU32(windowSize);
      case Disconnect(reason) =>
        buffer.WriteU32(reason);
      case BandwidthLimit(incoming, outgoing) =>
        Regroup2(start, Be32(incoming), Be32(outgoing));
        buffer.WriteU32(incoming);
        buffer.WriteU32(outgoing);
      case ThrottleConfigure(interval, acceleration, deceleration) =>
        Regroup3(start, Be32(interval), Be32(acceleration), Be32(deceleration));
        buffer.WriteU32(interval);
        buffer.WriteU32(acceleration);
        buffer.WriteU32(deceleration);
      case PMTUProbe(size, token, payload) =>
        Regroup3(start, Be16(size), Be32(token), Sized(payload));
        buffer.WriteU16(size);
        buffer.WriteU32(token);
        buffer.WriteSized(payload);
      case PMTUReply(size, token) =>
        Regroup2(start, Be16(size), Be32(token));
        buffer.WriteU16(size);
        buffer.WriteU32(token);
    }
    assert buffer.data == start + Body(c);
    Regroup2(old(buffer.data), [c.CommandType()], Body(c));
  }

  /** Filling the two placeholder bytes in afterwards gives the payload behind its length. */
  lemma PatchedIsSized(prefix: bytes, payload: bytes)
    ensures
      var data := prefix + Be16(0) + payload;
      data[..|prefix|] + Be16(Low16(|payload|)) + data[|prefix| + 2..] == prefix + Sized(payload)
  {
    var data := prefix + Be16(0) + payload;
    assert data[..|prefix|] == prefix && data[|prefix| + 2..] == payload;
    Regroup2(prefix, Be16(Low16(|payload|)), payload);
  }

  /** Reserves two bytes, appends the command and fills its length in afterwards. */
  method EncodePatched(buffer: Buffer, c: Command)
    modifies buffer
    ensures buffer.data == old(buffer.data) + Sized(EncodeCommand(c))
  {
    var lenPos := |buffer.data|;
    buffer.WriteU16(0);
    var start := |buffer.data|;
    EncodeCommandInto(buffer, c);
    var cmdLen := |buffer.data| - start;
    buffer.PatchU16(lenPos, cmdLen);
    PatchedIsSized(old(buffer.data), EncodeCommand(c));
  }

  /** Appends a packet in place: byte for byte what `EncodePacket` builds, whatever its size. */
  method EncodePacketInto(buffer: Buffer, cs: seq<Command>)
    modifies buffer
    ensures buffer.data == old(buffer.data) + EncodePacket(cs)
  {
    ghost var put := EncodeCommand;
    buffer.WriteU8(|cs| % 0x100);
    ghost var start := buffer.data;
    assert cs[..0] == [] && start + PutAll(put, []) == start;
    for i := 0 to |cs|
      invariant buffer.data == start + PutAll(put, cs[..i])
    {
      EncodePatched(buffer, cs[i]);
      AppendOneMore(put, start, cs, i);
    }
    assert cs[..|cs|] == cs;
    Regroup2(old(buffer.data), [|cs| % 0x100], PutAll(put, cs));
  }

  lemma AppendOneMore(put: Command -> bytes, start: bytes, cs: seq<Command>, i: nat)
    requires i < |cs|
    ensures start + PutAll(put, cs[..i]) + Sized(put(cs[i])) == start + PutAll(put, cs[..i + 1])
  {
    PutOneMore(put, cs[..i], cs[i]);
    assert cs[..i + 1] == cs[..i] + [cs[i]];
    Regroup2(start, PutAll(put, cs[..i]), Sized(put(cs[i])));
  }

  method EncodeAlone(c: Command) returns (encoded: bytes)
    ensures encoded == EncodeCommand(c)
  {
    var buffer := new Buffer();
    EncodeCommandInto(buffer, c);
    encoded := buffer.data;
  }

  /** The plain encoder: every command encoded by itself and appended behind its length. */
  method EncodePacketAlone(cs: seq<Command>) returns (encoded: bytes)
    ensures encoded == EncodePacket(cs)
  {
    ghost var put := EncodeCommand;
    var buffer := new Buffer();
    buffer.WriteU8(|cs| % 0x100);
    ghost var start := buffer.data;
    assert cs[..0] == [] && start + PutAll(put, []) == start;
    for i := 0 to |cs|
      invariant buffer.data == start + PutAll(put, cs[..i])
    {
      var command := EncodeAlone(cs[i]);
      buffer.WriteSized(command);
      AppendOneMore(put, start, cs, i);
    }
    assert cs[..|cs|] == cs;
    encoded := buffer.data;
  }
}

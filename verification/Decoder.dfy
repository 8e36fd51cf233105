/** Parsing of commands and packets. */
module Decoder {
  import opened Numbers
  import opened Wire
  import opened Command
  import opened Records

  function GetSendReliable(s: bytes): (r: Result<(Command, bytes)>)
    ensures r.Ok? ==> r.value.0.WireSize() + |r.value.1| == 1 + |s|
  {
    var (channelId, s) :- GetU8(s);
    var (number, s) :- GetU16(s);
    var (ordered, s) :- GetU8(s);
    var (data, s) :- GetSized(s);
    Ok((SendReliable(channelId, number, ordered != 0, data), s))
  }

  function GetSendUnreliable(s: bytes): (r: Result<(Command, bytes)>)
    ensures r.Ok? ==> r.value.0.WireSize() + |r.value.1| == 1 + |s|
  {
    var (channelId, s) :- GetU8(s);
    var (data, s) :- GetSized(s);
    Ok((SendUnreliable(channelId, data), s))
  }

  function GetSendUnreliableSequenced(s: bytes): (r: Result<(Command, bytes)>)
    ensures r.Ok? ==> r.value.0.WireSize() + |r.value.1| == 1 + |s|
  {
    var (channelId, s) :- GetU8(s);
    var (number, s) :- GetU16(s);
    var (data, s) :- GetSized(s);
    Ok((SendUnreliableSequenced(channelId, number, data), s))
  }

  function GetSendUnsequenced(s: bytes): (r: Result<(Command, bytes)>)
    ensures r.Ok? ==> r.value.0.WireSize() + |r.value.1| == 1 + |s|
  {
    var (channelId, s) :- GetU8(s);
    var (unsequencedGroup, s) :- GetU16(s);
    var (data, s) :- GetSized(s);
    Ok((SendUnsequenced(channelId, unsequencedGroup, data), s))
  }

  function GetSendFragment(s: bytes): (r: Result<(Command, bytes)>)
    ensures r.Ok? ==> r.value.0.WireSize() + |r.value.1| == 1 + |s|
  {
    var (channelId, s) :- GetU8(s);
    var (number, s) :- GetU16(s);
    var (ordered, s) :- GetU8(s);
    var (fragmentId, s) :- GetU8(s);
    var (fragmentCount, s) :- GetU8(s);
    var (data, s) :- GetSized(s);
    Ok((SendFragment(channelId, number, ordered != 0, fragmentId, fragmentCount, data), s))
  }

  function GetSendUnreliableFragment(s: bytes): (r: Result<(Command, bytes)>)
    ensures r.Ok? ==> r.value.0.WireSize() + |r.value.1| == 1 + |s|
  {
    var (channelId, s) :- GetU8(s);
    var (number, s) :- GetU16(s);
    var (fragmentId, s) :- GetU8(s);
    var (fragmentCount, s) :- GetU8(s);
    var (data, s) :- GetSized(s);
    Ok((SendUnreliableFragment(channelId, number, fragmentId, fragmentCount, data), s))
  }

  /** A send time is there exactly when bytes are left over. */
  function GetAcknowledge(s: bytes): (r: Result<(Command, bytes)>)
    ensures r.Ok? ==> r.value.0.WireSize() + |r.value.1| == 1 + |s|
  {
    var (number, s) :- GetU16(s);
    var (receivedMask, s) :- GetU32(s);
    if s != [] then
      var (sentTime, s) :- GetU32(s);
      Ok((Acknowledge(number, receivedMask, Some(sentTime)), s))
    else
      Ok((Acknowledge(number, receivedMask, None), s))
  }

  function GetPing(s: bytes): (r: Result<(Command, bytes)>)
    ensures r.Ok? ==> r.value.0.WireSize() + |r.value.1| == 1 + |s|
  {
    var (timestamp, s) :- GetU32(s);
    Ok((Ping(timestamp), s))
  }

  function GetPong(s: bytes): (r: Result<(Command, bytes)>)
    ensures r.Ok? ==> r.value.0.WireSize() + |r.value.1| == 1 + |s|
  {
    var (timestamp, s) :- GetU32(s);
    Ok((Pong(timestamp), s))
  }

  function GetConnect(s: bytes): (r: Result<(Command, bytes)>)
    ensures r.Ok? ==> r.value.0.WireSize() + |r.value.1| == 1 + |s|
  {
    var (channels, s) :- GetU8(s);
    var (mtu, s) :- GetU16(s);
    var (protocolVersion, s) :- GetU16(s);
    var (outgoingSessionId, s) :- GetU16(s);
    var (connectId, s) :- GetU32(s);
    Ok((Connect(channels, mtu, protocolVersion, outgoingSessionId, connectId), s))
  }

  function GetVerifyConnect(s: bytes): (r: Result<(Command, bytes)>)
    ensures r.Ok? ==> r.value.0.WireSize() + |r.value.1| == 1 + |s|
  {
    var (peerId, s) :- GetU16(s);
    var (channels, s) :- GetU8(s);
    var (mtu, s) :- GetU16(s);
    var (incomingSessionId, s) :- GetU16(s);
    var (outgoingSessionId, s) :- GetU16(s);
    var (windowSize, s) :- GetU32(s);
    Ok((VerifyConnect(peerId, channels, mtu, incomingSessionId, outgoingSessionId, windowSize), s))
  }

  function GetDisconnect(s: bytes): (r: Result<(Command, bytes)>)
    ensures r.Ok? ==> r.value.0.WireSize() + |r.value.1| == 1 + |s|
  {
    var (reason, s) :- GetU32(s);
    Ok((Disconnect(reason), s))
  }

  function GetBandwidthLimit(s: bytes): (r: Result<(Command, bytes)>)
    ensures r.Ok? ==> r.value.0.WireSize() + |r.value.1| == 1 + |s|
  {
    var (incoming, s) :- GetU32(s);
    var (outgoing, s) :- GetU32(s);
    Ok((BandwidthLimit(incoming, outgoing), s))
  }

  function GetThrottleConfigure(s: bytes): (r: Result<(Command, bytes)>)
    ensures r.Ok? ==> r.value.0.WireSize() + |r.value.1| == 1 + |s|
  {
    var (interval, s) :- GetU32(s);
    var (acceleration, s) :- GetU32(s);
    var (deceleration, s) :- GetU32(s);
    Ok((ThrottleConfigure(interval, acceleration, deceleration), s))
  }

  function GetPMTUProbe(s: bytes): (r: Result<(Command, bytes)>)
    ensures r.Ok? ==> r.value.0.WireSize() + |r.value.1| == 1 + |s|
  {
    var (size, s) :- GetU16(s);
    var (token, s) :- GetU32(s);
    var (payload, s) :- GetSized(s);
    Ok((PMTUProbe(size, token, payload), s))
  }

  function GetPMTUReply(s: bytes): (r: Result<(Command, bytes)>)
    ensures r.Ok? ==> r.value.0.WireSize() + |r.value.1| == 1 + |s|
  {
    var (size, s) :- GetU16(s);
    var (token, s) :- GetU32(s);
    Ok((PMTUReply(size, token), s))
  }

  function GetBody(kind: byte, s: bytes): (r: Result<(Command, bytes)>)
    ensures r.Ok? ==> r.value.0.WireSize() + |r.value.1| == 1 + |s|
  {
    match kind
    case 1 => GetSendReliable(s)
    case 2 => GetSendUnreliable(s)
    case 3 => GetSendUnreliableSequenced(s)
    case 4 => GetSendUnsequenced(s)
    case 5 => GetSendFragment(s)
    case 6 => GetSendUnreliableFragment(s)
    case 7 => GetAcknowledge(s)
    case 8 => GetPing(s)
    case 9 => GetPong(s)
    case 10 => GetConnect(s)
    case 11 => GetVerifyConnect(s)
    case 12 => GetDisconnect(s)
    case 13 => GetBandwidthLimit(s)
    case 14 => GetThrottleConfigure(s)
    case 15 => GetPMTUProbe(s)
    case 16 => GetPMTUReply(s)
    case _ => Err
  }

  /** A command and what is left; it takes exactly the bytes that it would be written in. */
  function GetCommand(s: bytes): (r: Result<(Command, bytes)>)
    ensures r.Ok? ==> r.value.0.WireSize() + |r.value.1| == |s|
  {
    var (kind, s) :- GetU8(s);
    GetBody(kind, s)
  }

  function DecodePacket(s: bytes): Result<seq<Command>> { GetPacket(GetCommand, s) }

  /** Does the cursor stand where the reader `expected` leaves off? */
  ghost predicate Agrees<T>(r: Result<T>, rest: bytes, expected: Result<(T, bytes)>) {
    match expected
    case Ok((v, left)) => r == Ok(v) && rest == left
    case Err => r == Err
  }

  method ReadSendReliable(cursor: Cursor) returns (r: Result<Command>)
    requires cursor.Valid()
    modifies cursor
    ensures cursor.Valid() && Agrees(r, cursor.Rest(), GetSendReliable(old(cursor.Rest())))
  {
    var channelId :- cursor.ReadU8();
    var number :- cursor.ReadU16();
    var ordered :- cursor.ReadU8();
    var data :- cursor.ReadSized();
    r := Ok(SendReliable(channelId, number, ordered != 0, data));
  }

  method ReadSendUnreliable(cursor: Cursor) returns (r: Result<Command>)
    requires cursor.Valid()
    modifies cursor
    ensures cursor.Valid() && Agrees(r, cursor.Rest(), GetSendUnreliable(old(cursor.Rest())))
  {
    var channelId :- cursor.ReadU8();
    var data :- cursor.ReadSized();
    r := Ok(SendUnreliable(channelId, data));
  }

  method ReadSendUnreliableSequenced(cursor: Cursor) returns (r: Result<Command>)
    requires cursor.Valid()
    modifies cursor
    ensures cursor.Valid() && Agrees(r, cursor.Rest(), GetSendUnreliableSequenced(old(cursor.Rest())))
  {
    var channelId :- cursor.ReadU8();
    var number :- cursor.ReadU16();
    var data :- cursor.ReadSized();
    r := Ok(SendUnreliableSequenced(channelId, number, data));
  }

  method ReadSendUnsequenced(cursor: Cursor) returns (r: Result<Command>)
    requires cursor.Valid()
    modifies cursor
    ensures cursor.Valid() && Agrees(r, cursor.Rest(), GetSendUnsequenced(old(cursor.Rest())))
  {
    var channelId :- cursor.ReadU8();
    var unsequencedGroup :- cursor.ReadU16();
    var data :- cursor.ReadSized();
    r := Ok(SendUnsequenced(channelId, unsequencedGroup, data));
  }

  method ReadSendFragment(cursor: Cursor) returns (r: Result<Command>)
    requires cursor.Valid()
    modifies cursor
    ensures cursor.Valid() && Agrees(r, cursor.Rest(), GetSendFragment(old(cursor.Rest())))
  {
    var channelId :- cursor.ReadU8();
    var number :- cursor.ReadU16();
    var ordered :- cursor.ReadU8();
    var fragmentId :- cursor.ReadU8();
    var fragmentCount :- cursor.ReadU8();
    var data :- cursor.ReadSized();
    r := Ok(SendFragment(channelId, number, ordered != 0, fragmentId, fragmentCount, data));
  }

  method ReadSendUnreliableFragment(cursor: Cursor) returns (r: Result<Command>)
    requires cursor.Valid()
    modifies cursor
    ensures cursor.Valid() && Agrees(r, cursor.Rest(), GetSendUnreliableFragment(old(cursor.Rest())))
  {
    var channelId :- cursor.ReadU8();
    var number :- cursor.ReadU16();
    var fragmentId :- cursor.ReadU8();
    var fragmentCount :- cursor.ReadU8();
    var data :- cursor.ReadSized();
    r := Ok(SendUnreliableFragment(channelId, number, fragmentId, fragmentCount, data));
  }

  method ReadAcknowledge(cursor: Cursor) returns (r: Result<Command>)
    requires cursor.Valid()
    modifies cursor
    ensures cursor.Valid() && Agrees(r, cursor.Rest(), GetAcknowledge(old(cursor.Rest())))
  {
    var number :- cursor.ReadU16();
    var receivedMask :- cursor.ReadU32();
    if cursor.pos < |cursor.data| {
      var sentTime :- cursor.ReadU32();
      r := Ok(Acknowledge(number, receivedMask, Some(sentTime)));
    } else {
      r := Ok(Acknowledge(number, receivedMask, None));
    }
  }

  method ReadPing(cursor: Cursor) returns (r: Result<Command>)
    requires cursor.Valid()
    modifies cursor
    ensures cursor.Valid() && Agrees(r, cursor.Rest(), GetPing(old(cursor.Rest())))
  {
    var timestamp :- cursor.ReadU32();
    r := Ok(Ping(timestamp));
  }

  method ReadPong(cursor: Cursor) returns (r: Result<Command>)
    requires cursor.Valid()
    modifies cursor
    ensures cursor.Valid() && Agrees(r, cursor.Rest(), GetPong(old(cursor.Rest())))
  {
    var timestamp :- cursor.ReadU32();
    r := Ok(Pong(timestamp));
  }

  method ReadConnect(cursor: Cursor) returns (r: Result<Command>)
    requires cursor.Valid()
    modifies cursor
    ensures cursor.Valid() && Agrees(r, cursor.Rest(), GetConnect(old(cursor.Rest())))
  {
    var channels :- cursor.ReadU8();
    var mtu :- cursor.ReadU16();
    var protocolVersion :- cursor.ReadU16();
    var outgoingSessionId :- cursor.ReadU16();
    var connectId :- cursor.ReadU32();
    r := Ok(Connect(channels, mtu, protocolVersion, outgoingSessionId, connectId));
  }

  method ReadVerifyConnect(cursor: Cursor) returns (r: Result<Command>)
    requires cursor.Valid()
    modifies cursor
    ensures cursor.Valid() && Agrees(r, cursor.Rest(), GetVerifyConnect(old(cursor.Rest())))
  {
    var peerId :- cursor.ReadU16();
    var channels :- cursor.ReadU8();
    var mtu :- cursor.ReadU16();
    var incomingSessionId :- cursor.ReadU16();
    var outgoingSessionId :- cursor.ReadU16();
    var windowSize :- cursor.ReadU32();
    r := Ok(VerifyConnect(peerId, channels, mtu, incomingSessionId, outgoingSessionId, windowSize));
  }

  method ReadDisconnect(cursor: Cursor) returns (r: Result<Command>)
    requires cursor.Valid()
    modifies cursor
    ensures cursor.Valid() && Agrees(r, cursor.Rest(), GetDisconnect(old(cursor.Rest())))
  {
    var reason :- cursor.ReadU32();
    r := Ok(Disconnect(reason));
  }

  method ReadBandwidthLimit(cursor: Cursor) returns (r: Result<Command>)
    requires cursor.Valid()
    modifies cursor
    ensures cursor.Valid() && Agrees(r, cursor.Rest(), GetBandwidthLimit(old(cursor.Rest())))
  {
    var incoming :- cursor.ReadU32();
    var outgoing :- cursor.ReadU32();
    r := Ok(BandwidthLimit(incoming, outgoing));
  }

  method ReadThrottleConfigure(cursor: Cursor) returns (r: Result<Command>)
    requires cursor.Valid()
    modifies cursor
    ensures cursor.Valid() && Agrees(r, cursor.Rest(), GetThrottleConfigure(old(cursor.Rest())))
  {
    var interval :- cursor.ReadU32();
    var acceleration :- cursor.ReadU32();
    var deceleration :- cursor.ReadU32();
    r := Ok(ThrottleConfigure(interval, acceleration, deceleration));
  }

  method ReadPMTUProbe(cursor: Cursor) returns (r: Result<Command>)
    requires cursor.Valid()
    modifies cursor
    ensures cursor.Valid() && Agrees(r, cursor.Rest(), GetPMTUProbe(old(cursor.Rest())))
  {
    var size :- cursor.ReadU16();
    var token :- cursor.ReadU32();
    var payload :- cursor.ReadSized();
    r := Ok(PMTUProbe(size, token, payload));
  }

  method ReadPMTUReply(cursor: Cursor) returns (r: Result<Command>)
    requires cursor.Valid()
    modifies cursor
    ensures cursor.Valid() && Agrees(r, cursor.Rest(), GetPMTUReply(old(cursor.Rest())))
  {
    var size :- cursor.ReadU16();
    var token :- cursor.ReadU32();
    r := Ok(PMTUReply(size, token));
  }

  method DecodeCommand(cursor: Cursor) returns (r: Result<Command>)
    requires cursor.Valid()
    modifies cursor
    ensures cursor.Valid() && Agrees(r, cursor.Rest(), GetCommand(old(cursor.Rest())))
  {
    var kind :- cursor.ReadU8();
    match kind {
      case 1 => r := ReadSendReliable(cursor);
      case 2 => r := ReadSendUnreliable(cursor);
      case 3 => r := ReadSendUnreliableSequenced(cursor);
      case 4 => r := ReadSendUnsequenced(cursor);
      case 5 => r := ReadSendFragment(cursor);
      case 6 => r := ReadSendUnreliableFragment(cursor);
      case 7 => r := ReadAcknowledge(cursor);
      case 8 => r := ReadPing(cursor);
      case 9 => r := ReadPong(cursor);
      case 10 => r := ReadConnect(cursor);
      case 11 => r := ReadVerifyConnect(cursor);
      case 12 => r := ReadDisconnect(cursor);
      case 13 => r := ReadBandwidthLimit(cursor);
      case 14 => r := ReadThrottleConfigure(cursor);
      case 15 => r := ReadPMTUProbe(cursor);
      case 16 => r := ReadPMTUReply(cursor);
      case _ => r := Err;
    }
  }

  /** `next` parses the next command; the loop below is proved for any such parser. */
  ghost predicate ParsesNext(next: Parser<Command>) {
    forall s {:trigger GetOne(GetCommand, s)} :: next(s) == GetOne(GetCommand, s)
  }

  method ReadNext(cursor: Cursor, ghost next: Parser<Command>) returns (r: Result<Command>)
    requires cursor.Valid() && ParsesNext(next)
    modifies cursor
    ensures cursor.Valid() && Agrees(r, cursor.Rest(), next(old(cursor.Rest())))
  {
    assert next(cursor.Rest()) == GetOne(GetCommand, cursor.Rest());
    var slice :- cursor.ReadSized();
    var inner := new Cursor(slice);
    r := DecodeCommand(inner);
  }

  method ReadCommands(cursor: Cursor, count: nat, ghost next: Parser<Command>) returns (r: Result<seq<Command>>)
    requires cursor.Valid() && ParsesNext(next)
    modifies cursor
    ensures cursor.Valid() && r == GetAll(next, count, old(cursor.Rest()))
  {
    ghost var goal := GetAll(next, count, cursor.Rest());
    var commands: seq<Command> := [];
    PrependNone(goal);
    for i := 0 to count
      invariant cursor.Valid()
      invariant goal == Prepend(commands, GetAll(next, count - i, cursor.Rest()))
    {
      GetOneMore(next, commands, count - i, cursor.Rest());
      var c :- ReadNext(cursor, next);
      commands := commands + [c];
    }
    assert commands + [] == commands;
    r := Ok(commands);
  }

  method ReadPacket(data: bytes) returns (r: Result<seq<Command>>)
    ensures r == DecodePacket(data)
  {
    var cursor := new Cursor(data);
    var count :- cursor.ReadU8();
    r := ReadCommands(cursor, count, Framed(GetCommand));
  }
}

/** The protocol commands and the packets that aggregate them. */
module Command {
  import opened Numbers

  datatype Command =
    | SendReliable(channelId: byte, number: u16, ordered: bool, data: bytes)
    | SendUnreliable(channelId: byte, data: bytes)
    | SendUnreliableSequenced(channelId: byte, number: u16, data: bytes)
    | SendUnsequenced(channelId: byte, unsequencedGroup: u16, data: bytes)
    | SendFragment(channelId: byte, number: u16, ordered: bool, fragmentId: byte, fragmentCount: byte, data: bytes)
    | SendUnreliableFragment(channelId: byte, number: u16, fragmentId: byte, fragmentCount: byte, data: bytes)
    | Acknowledge(number: u16, receivedMask: u32, sentTime: Option<u32>)
    | Ping(timestamp: u32)
    | Pong(timestamp: u32)
    | Connect(channels: byte, mtu: u16, protocolVersion: u16, outgoingSessionId: u16, connectId: u32)
    | VerifyConnect(
        peerId: u16, channels: byte, mtu: u16, incomingSessionId: u16, outgoingSessionId: u16, windowSize: u32)
    | Disconnect(reason: u32)
    | BandwidthLimit(incoming: u32, outgoing: u32)
    | ThrottleConfigure(interval: u32, acceleration: u32, deceleration: u32)
    | PMTUProbe(size: u16, token: u32, payload: bytes)
    | PMTUReply(size: u16, token: u32)
  {
    function CommandType(): byte {
      match this
      case SendReliable(_, _, _, _) => 1
      case SendUnreliable(_, _) => 2
      case SendUnreliableSequenced(_, _, _) => 3
      case SendUnsequenced(_, _, _) => 4
      case SendFragment(_, _, _, _, _, _) => 5
      case SendUnreliableFragment(_, _, _, _, _) => 6
      case Acknowledge(_, _, _) => 7
      case Ping(_) => 8
      case Pong(_) => 9
      case Connect(_, _, _, _, _) => 10
      case VerifyConnect(_, _, _, _, _, _) => 11
      case Disconnect(_) => 12
      case BandwidthLimit(_, _) => 13
      case ThrottleConfigure(_, _, _) => 14
      case PMTUProbe(_, _, _) => 15
      case PMTUReply(_, _) => 16
    }

    /** The user payload a command carries; control commands, PMTU probes included, count as none. */
    function DataSize(): nat {
      match this
      case SendReliable(_, _, _, data) => |data|
      case SendUnreliable(_, data) => |data|
      case SendUnreliableSequenced(_, _, data) => |data|
      case SendUnsequenced(_, _, data) => |data|
      case SendFragment(_, _, _, _, _, data) => |data|
      case SendUnreliableFragment(_, _, _, _, data) => |data|
      case _ => 0
    }

    /** The size of a command on the wire, without its length prefix. */
    function WireSize(): nat {
      match this
      case SendReliable(_, _, _, data) => 7 + |data|
      case SendUnreliable(_, data) => 4 + |data|
      case SendUnreliableSequenced(_, _, data) => 6 + |data|
      case SendUnsequenced(_, _, data) => 6 + |data|
      case SendFragment(_, _, _, _, _, data) => 9 + |data|
      case SendUnreliableFragment(_, _, _, _, data) => 8 + |data|
      case Acknowledge(_, _, sentTime) => if sentTime.Some? then 11 else 7
      case Ping(_) => 5
      case Pong(_) => 5
      case Connect(_, _, _, _, _) => 12
      case VerifyConnect(_, _, _, _, _, _) => 14
      case Disconnect(_) => 5
      case BandwidthLimit(_, _) => 9
      case ThrottleConfigure(_, _, _) => 13
      case PMTUProbe(_, _, payload) => 9 + |payload|
      case PMTUReply(_, _) => 7
    }
  }
}

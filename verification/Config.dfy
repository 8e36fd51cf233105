/** What the peer engine reads of its configuration. */
module Config {
  import opened Numbers
  import opened Clock
  import opened Command
  import opened Encoder
  import opened Framing

  datatype Config = Config(
    idleConnectionTimeout: Duration,
    maxPacketsInFlight: u16,
    channelCount: byte,
    useConnectionHandshake: bool,
    heartbeatInterval: Option<Duration>,
    incomingBandwidthLimit: u32,
    outgoingBandwidthLimit: u32,
    useWindowFlowControl: bool,
    initialWindowSize: u32,
    minWindowSize: u32,
    maxWindowSize: u32,
    useAdvancedThrottling: bool,
    throttleAcceleration: u32,
    throttleDeceleration: u32,
    throttleIntervalMs: u32,
    maxFragments: byte,
    fragmentSize: u16,
    receiveBufferMaxSize: nat,
    useChecksums: bool,
    compression: CompressionAlgorithm,
    compressionThreshold: nat,
    maxWaitingData: nat,
    usePmtuDiscovery: bool,
    pmtuMin: u16,
    pmtuMax: u16,
    pmtuIntervalMs: u32,
    pmtuConvergeThreshold: u16)
  {
    /** What every sender sets aside per datagram: the count byte, the compression header and the checksum. */
    function StaticOverhead(): nat { 1 + CompressionOverhead(compression) + ChecksumOverhead(useChecksums) }

    /** The largest datagram worth probing. */
    function DatagramCap(): u16 { Min(receiveBufferMaxSize, 0xFFFF) }
  }

  /** The datagram that carries the packet of `cs`. */
  function Datagram(libs: Libraries, config: Config, cs: seq<Command>): Result<bytes> {
    Frame(libs, EncodePacket(cs), config.compression, config.compressionThreshold, config.useChecksums)
  }
}

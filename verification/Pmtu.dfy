/** Path MTU discovery: the timed binary search for the largest datagram the path carries. */
module Pmtu {
  import opened Numbers
  import opened Clock
  import opened Command
  import opened Config

  datatype Probe = Probe(size: u16, token: u32, sentAt: Instant)

  datatype Search = Search(
    fragmentSize: u16, low: u16, high: u16, lastProbe: Instant, outstanding: Option<Probe>)
  {
    predicate TimedOut(time: Instant, rto: Duration)
      requires outstanding.Some?
    {
      Since(time, outstanding.value.sentAt) > Max(rto, 200 * MILLISECOND)
    }

    /** The outstanding probe failed: the bound drops below its size. */
    function Fail(time: Instant): Search
      requires outstanding.Some?
    {
      var size := outstanding.value.size;
      this.(high := if size > 0 then Min(high, size - 1) else high, outstanding := None, lastProbe := time)
    }

    function Clamp(cap: u16): Search { this.(high := Min(high, cap)) }

    predicate Converged(threshold: u16) { SaturatingSub(high, low) <= threshold }

    function Middle(): u16 { (low + high) / 2 }

    function Launch(token: u32, time: Instant): Search {
      this.(outstanding := Some(Probe(Middle(), token, time)), lastProbe := time)
    }

    /** One call of `handle_pmtu`: the state afterwards and the probe to send, if any. */
    function Poll(config: Config, time: Instant, rto: Duration, token: u32, noise: nat -> byte)
      : (Search, Option<Command>)
    {
      if !config.usePmtuDiscovery then (this, None)
      else if outstanding.Some? then (if TimedOut(time, rto) then Fail(time) else this, None)
      else
        var s := Clamp(config.DatagramCap());
        if s.Converged(config.pmtuConvergeThreshold) then (s.(fragmentSize := low), None)
        else if Since(time, lastProbe) < config.pmtuIntervalMs * MILLISECOND then (s, None)
        else (s.Launch(token, time), Some(ProbeCommand(config, s.Middle(), token, noise)))
    }

    /** One call of `process_reply`; the result of the call is whether anything changed. */
    function Reply(size: u16, token: u32, time: Instant): Search {
      if outstanding.Some? && outstanding.value.token == token then
        Search(Max(low, size), Max(low, size), high, time, None)
      else this
    }
  }

  function Initial(config: Config, time: Instant): Search {
    Search(config.fragmentSize, config.pmtuMin, config.pmtuMax, time, None)
  }

  /** The overhead of a datagram with one probe in it. */
  function ProbeOverhead(config: Config): nat { config.StaticOverhead() + 2 + (1 + 2 + 4 + 2) }

  function ProbeCommand(config: Config, middle: u16, token: u32, noise: nat -> byte): Command {
    var target := Min(middle, config.DatagramCap());
    PMTUProbe(target, token, seq<byte>(Max(SaturatingSub(target, ProbeOverhead(config)), 1), noise))
  }

  class PmtuDiscovery {
    const config: Config
    var fragmentSize: u16
    var low: u16
    var high: u16
    var lastProbe: Instant
    var outstanding: Option<Probe>

    function State(): Search
      reads this
    {
      Search(fragmentSize, low, high, lastProbe, outstanding)
    }

    constructor (config: Config, time: Instant)
      ensures this.config == config && State() == Initial(config, time)
    {
      this.config := config;
      fragmentSize := config.fragmentSize;
      low := config.pmtuMin;
      high := config.pmtuMax;
      lastProbe := time;
      outstanding := None;
    }

    method HandlePmtu(time: Instant, rto: Duration, token: u32, noise: nat -> byte) returns (probe: Option<Command>)
      modifies this
      ensures (State(), probe) == old(State()).Poll(config, time, rto, token, noise)
    {
      if !config.usePmtuDiscovery {
        return None;
      }
      if outstanding.Some? {
        var size, sent := outstanding.value.size, outstanding.value.sentAt;
        var timeout := Max(rto, 200 * MILLISECOND);
        if Since(time, sent) > timeout {
          if size > 0 {
            high := Min(high, size - 1);
          }
          outstanding := None;
          lastProbe := time;
        }
        return None;
      }
      var datagramCap: u16 := Min(config.receiveBufferMaxSize, 0xFFFF);
      if high > datagramCap {
        high := datagramCap;
      }
      if SaturatingSub(high, low) <= config.pmtuConvergeThreshold {
        fragmentSize := low;
        return None;
      }
      if Since(time, lastProbe) < config.pmtuIntervalMs * MILLISECOND {
        return None;
      }
      var mid: u16 := (low + high) / 2;
      var target: u16 := Min(mid, datagramCap);
      var staticOverhead := 1 + (if config.compression.Lz4? then 5 else 1) + (if config.useChecksums then 4 else 0);
      var totalOverhead := staticOverhead + 2 + (1 + 2 + 4 + 2);
      var payloadLen := if target > totalOverhead then Max(target - totalOverhead, 1) else 1;
      outstanding := Some(Probe(mid, token, time));
      lastProbe := time;
      return Some(PMTUProbe(target, token, seq<byte>(payloadLen, noise)));
    }

    method ProcessReply(size: u16, token: u32, time: Instant) returns (accepted: bool)
      modifies this
      ensures State() == old(State()).Reply(size, token, time)
      ensures accepted <==> old(outstanding).Some? && old(outstanding).value.token == token
    {
      if outstanding.Some? && outstanding.value.token == token {
        low := Max(low, size);
        fragmentSize := low;
        outstanding := None;
        lastProbe := time;
        return true;
      }
      return false;
    }
  }
}

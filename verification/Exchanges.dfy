/** Exchanges of two peers by single commands: pings, probes and the window. */
module Exchanges {
  import opened Numbers
  import opened Clock
  import opened Command
  import opened Config
  import opened Pmtu
  import opened Processor

  /** A ping comes back with its time stamp, whatever the state of the peer that gets it. */
  lemma PingIsAnswered(i: ValidInbox, timestamp: u32, s: Surroundings)
    ensures i.Replies(Ping(timestamp), s) == [Pong(timestamp)]
  {
  }

  lemma ProbeIsReplied(i: ValidInbox, c: Command, s: Surroundings)
    requires c.PMTUProbe?
    ensures i.Replies(c, s) == [PMTUReply(c.size, c.token)]
  {
  }

  lemma ReplyReachesSearch(o: Outbox, i: ValidInbox, size: u16, token: u32, s: Surroundings)
    ensures o.After(i, PMTUReply(size, token), s).search == o.search.Reply(size, token, s.time)
  {
  }

  lemma LaunchAndReply(
    config: Config, s: Search, time: Instant, rto: Duration, token: u32, noise: nat -> byte, later: Instant)
    requires s.outstanding.None? && s.Poll(config, time, rto, token, noise).1.Some?
    ensures
      var (t, probe) := s.Poll(config, time, rto, token, noise);
      && probe.value.PMTUProbe? && probe.value.token == token
      && (var after := t.Reply(probe.value.size, token, later);
          && after.low == Max(s.low, probe.value.size) && after.fragmentSize == after.low
          && after.outstanding.None? && after.lastProbe == later)
  {
  }

  /** A probe that arrives, and whose answer arrives while it is outstanding, makes its size the least that the search
      goes on from, and the size of datagrams. */
  lemma ProbeIsAnswered(
    config: Config, o: Outbox, time: Instant, rto: Duration, token: u32, noise: nat -> byte, other: ValidInbox,
    s: Surroundings, i: ValidInbox, t: Surroundings)
    requires o.search.outstanding.None? && o.search.Poll(config, time, rto, token, noise).1.Some?
    ensures
      var (search, probe) := o.search.Poll(config, time, rto, token, noise);
      var answers := other.Replies(probe.value, s);
      && |answers| == 1 && probe.value.PMTUProbe?
      && (var after := o.(search := search).After(i, answers[0], t).search;
          && after.low == Max(o.search.low, probe.value.size) && after.fragmentSize == after.low
          && after.outstanding.None? && after.lastProbe == t.time)
  {
    var (search, probe) := o.search.Poll(config, time, rto, token, noise);
    LaunchAndReply(config, o.search, time, rto, token, noise, t.time);
    ProbeIsReplied(other, probe.value, s);
    ReplyReachesSearch(o.(search := search), i, probe.value.size, token, t);
  }

  /** The window that a client ends up with lies in its configured range, and above the lower end of it is at most what
      either side named; it is one of the four. */
  lemma WindowIsAgreed(client: ValidInbox, c: Command, s: Surroundings)
    requires client.config.useWindowFlowControl && client.config.minWindowSize <= client.config.maxWindowSize
    requires client.state == Connecting && c.VerifyConnect?
    ensures
      var w, least, most := client.After(c, s).windowSize, client.config.minWindowSize, client.config.maxWindowSize;
      && least <= w <= most
      && (least < w ==> w <= c.windowSize && w <= client.windowSize)
      && w in {least, most, c.windowSize, client.windowSize}
  {
  }
}

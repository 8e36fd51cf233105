/** The path MTU search against a path that carries datagrams of up to `carried` bytes and no larger. */
module PmtuSearch {
  import opened Numbers
  import opened Bits
  import opened Clock
  import opened Command
  import opened Encoder
  import opened Framing
  import opened Config
  import opened Codec
  import opened Pmtu

  datatype Event =
    | Polled(time: Instant, rto: Duration, token: u32, noise: nat -> byte)
    | Replied(size: u16, token: u32, time: Instant)

  function Step(config: Config, s: Search, e: Event): Search {
    match e
    case Polled(time, rto, token, noise) => s.Poll(config, time, rto, token, noise).0
    case Replied(size, token, time) => s.Reply(size, token, time)
  }

  /** What the path allows: a probe times out only if it was too large, and a reply that carries the
      outstanding token echoes the size of a probe that the path carries. Other replies are stale. */
  predicate Allowed(config: Config, s: Search, e: Event, carried: nat) {
    s.outstanding.Some? ==>
      match e
      case Polled(time, rto, _, _) => s.TimedOut(time, rto) ==> carried < s.outstanding.value.size
      case Replied(size, token, _) =>
        token == s.outstanding.value.token ==> size == s.outstanding.value.size <= carried
  }

  /** Whether `e` completes the outstanding probe, by a reply or by its timeout. */
  predicate Completes(config: Config, s: Search, e: Event) {
    s.outstanding.Some? && Step(config, s, e).outstanding.None?
  }

  predicate AllowedRun(config: Config, s: Search, events: seq<Event>, carried: nat)
    decreases |events|
  {
    events == []
    || (Allowed(config, s, events[0], carried) && AllowedRun(config, Step(config, s, events[0]), events[1..], carried))
  }

  function Run(config: Config, s: Search, events: seq<Event>): Search
    decreases |events|
  {
    if events == [] then s else Run(config, Step(config, s, events[0]), events[1..])
  }

  function Completed(config: Config, s: Search, events: seq<Event>): nat
    decreases |events|
  {
    if events == [] then 0
    else
      (if Completes(config, s, events[0]) then 1 else 0) + Completed(config, Step(config, s, events[0]), events[1..])
  }

  /** The largest size the search can test. */
  function Ceiling(config: Config): u16 { Min(config.pmtuMax, config.DatagramCap()) }

  function High(config: Config, s: Search): u16 { Min(s.high, config.DatagramCap()) }

  /** The distance between the bounds. */
  function Width(config: Config, s: Search): nat { SaturatingSub(High(config, s), s.low) }

  predicate Sane(config: Config, carried: nat) {
    && config.pmtuMin <= carried && config.pmtuMin <= Ceiling(config)
    && 1 <= config.pmtuConvergeThreshold
  }

  /** The answer lies between the bounds, and an outstanding probe is strictly between them. */
  predicate Brackets(config: Config, s: Search, carried: nat) {
    && config.pmtuMin <= s.low <= carried && s.low <= High(config, s)
    && Min(carried, Ceiling(config)) <= High(config, s) <= Ceiling(config)
    && (s.outstanding.Some? ==>
          s.high <= config.DatagramCap() && s.low + 2 <= s.high && s.outstanding.value.size == s.Middle())
  }

  function Halved(width: nat): nat { (width + 1) / 2 }

  lemma StepKeepsBrackets(config: Config, s: Search, e: Event, carried: nat)
    requires Sane(config, carried) && Brackets(config, s, carried) && Allowed(config, s, e, carried)
    ensures Brackets(config, Step(config, s, e), carried)
  {
  }

  /** A completed probe halves the distance between the bounds, rounding up; nothing widens it. */
  lemma StepNarrows(config: Config, s: Search, e: Event, carried: nat)
    requires Sane(config, carried) && Brackets(config, s, carried) && Allowed(config, s, e, carried)
    ensures
      var t := Step(config, s, e);
      var width := Width(config, s);
      Width(config, t) <= if Completes(config, s, e) then Halved(width) else width
  {
  }

  function HalvedTimes(width: nat, k: nat): nat
    decreases k
  {
    if k == 0 then width else HalvedTimes(Halved(width), k - 1)
  }

  /** After `k` halvings `width` has become `width / 2^k`, rounded up. */
  lemma {:induction false} HalvedTimesIsCeiling(width: nat, k: nat)
    ensures width <= HalvedTimes(width, k) * Pow2(k) < width + Pow2(k)
    decreases k
  {
    if k > 0 {
      HalvedTimesIsCeiling(Halved(width), k - 1);
      var h, p := HalvedTimes(Halved(width), k - 1), Pow2(k - 1);
      DoubleProduct(h, p);
    }
  }

  lemma DoubleProduct(a: int, b: int)
    ensures a * (2 * b) == 2 * (a * b)
  {
  }

  lemma {:induction false} HalvedTimesMonotone(a: nat, b: nat, k: nat)
    requires a <= b
    ensures HalvedTimes(a, k) <= HalvedTimes(b, k)
    decreases k
  {
    if k > 0 {
      HalvedTimesMonotone(Halved(a), Halved(b), k - 1);
    }
  }

  lemma {:induction false} RunNarrows(config: Config, s: Search, events: seq<Event>, carried: nat)
    requires Sane(config, carried) && Brackets(config, s, carried) && AllowedRun(config, s, events, carried)
    ensures Brackets(config, Run(config, s, events), carried)
    ensures
      var t := Run(config, s, events);
      Width(config, t) <= HalvedTimes(Width(config, s), Completed(config, s, events))
    decreases |events|
  {
    if events != [] {
      var e := events[0];
      var t := Step(config, s, e);
      StepKeepsBrackets(config, s, e, carried);
      StepNarrows(config, s, e, carried);
      RunNarrows(config, t, events[1..], carried);
      var width := Width(config, s);
      var rest := Completed(config, t, events[1..]);
      HalvedTimesMonotone(Width(config, t), if Completes(config, s, e) then Halved(width) else width, rest);
    }
  }

  /** In every run from the start the true answer stays between the bounds, and after `k` completed
      probes they are at most the first distance over 2^k, rounded up, apart (`w <= ceil(d / p)` is `w * p < d + p`). */
  lemma SearchIsCorrect(config: Config, start: Instant, events: seq<Event>, carried: nat)
    requires Sane(config, carried) && AllowedRun(config, Initial(config, start), events, carried)
    ensures
      var t := Run(config, Initial(config, start), events);
      var k := Completed(config, Initial(config, start), events);
      && t.low <= carried && Min(carried, Ceiling(config)) <= t.high
      && Width(config, t) * Pow2(k) < Ceiling(config) - config.pmtuMin + Pow2(k)
  {
    RunNarrows(config, Initial(config, start), events, carried);
    var k := Completed(config, Initial(config, start), events);
    var width: nat := Ceiling(config) - config.pmtuMin;
    HalvedTimesIsCeiling(width, k);
    ProductMonotone(Width(config, Run(config, Initial(config, start), events)), HalvedTimes(width, k), Pow2(k));
  }

  lemma ProductMonotone(a: nat, b: nat, c: nat)
    requires a <= b
    ensures a * c <= b * c
  {
  }

  lemma SixteenHalvings(width: u16)
    ensures HalvedTimes(width, 16) <= 1
  {
    HalvedTimesIsCeiling(width, 16);
    assert Pow2(2) == 4 && Pow2(4) == 16 && Pow2(6) == 64 && Pow2(8) == 256;
    assert Pow2(10) == 1024 && Pow2(12) == 4096 && Pow2(14) == 16384 && Pow2(16) == 65536;
  }

  lemma {:induction false} CompletedAtMost(
    config: Config, s: Search, events: seq<Event>, carried: nat, width: nat, n: nat)
    requires Sane(config, carried) && Brackets(config, s, carried) && AllowedRun(config, s, events, carried)
    requires Width(config, s) <= width && HalvedTimes(width, n) <= 1
    ensures Completed(config, s, events) <= n
    decreases |events|
  {
    if events != [] {
      var e := events[0];
      var t := Step(config, s, e);
      StepKeepsBrackets(config, s, e, carried);
      StepNarrows(config, s, e, carried);
      if Completes(config, s, e) {
        CompletedAtMost(config, t, events[1..], carried, Halved(width), n - 1);
      } else {
        CompletedAtMost(config, t, events[1..], carried, width, n);
      }
    }
  }

  /** A width of at most 1 leaves no room for a probe. */
  lemma NarrowIsConverged(config: Config, s: Search, carried: nat)
    requires Sane(config, carried) && Brackets(config, s, carried) && Width(config, s) <= 1
    ensures s.outstanding.None? && s.Clamp(config.DatagramCap()).Converged(config.pmtuConvergeThreshold)
  {
  }

  /** Whatever the configured bounds, no run completes more than 16 probes, and 16 make it converge. */
  lemma AtMostSixteenProbes(config: Config, start: Instant, events: seq<Event>, carried: nat)
    requires Sane(config, carried) && AllowedRun(config, Initial(config, start), events, carried)
    ensures
      var t := Run(config, Initial(config, start), events);
      var k := Completed(config, Initial(config, start), events);
      && k <= 16
      && (k == 16 ==> t.outstanding.None? && t.Clamp(config.DatagramCap()).Converged(config.pmtuConvergeThreshold))
  {
    var width := Width(config, Initial(config, start));
    SixteenHalvings(width);
    RunNarrows(config, Initial(config, start), events, carried);
    CompletedAtMost(config, Initial(config, start), events, carried, width, 16);
    if Completed(config, Initial(config, start), events) == 16 {
      NarrowIsConverged(config, Run(config, Initial(config, start), events), carried);
    }
  }

  /** In a bracketing state a poll either waits, or probes, or has converged: then it sets the fragment
      size within the threshold of the largest size that the path carries and the search may test. */
  lemma PollSettlesOrProbes(
    config: Config, s: Search, carried: nat, time: Instant, rto: Duration, token: u32, noise: nat -> byte)
    requires config.usePmtuDiscovery && Sane(config, carried) && Brackets(config, s, carried)
    requires s.outstanding.None?
    ensures
      var (t, probe) := s.Poll(config, time, rto, token, noise);
      var best := Min(carried, Ceiling(config));
      if s.Clamp(config.DatagramCap()).Converged(config.pmtuConvergeThreshold) then
        t.fragmentSize <= best <= t.fragmentSize + config.pmtuConvergeThreshold && t.outstanding.None?
      else
        probe.Some? <==> config.pmtuIntervalMs * MILLISECOND <= Since(time, s.lastProbe)
  {
  }

  /** In every run from the start a poll with no probe outstanding, once the bounds are within the threshold, sets the
      fragment size within the threshold of the best size, and after 16 completed probes they are. */
  lemma SearchSettles(
    config: Config, start: Instant, events: seq<Event>, carried: nat, time: Instant, rto: Duration, token: u32,
    noise: nat -> byte)
    requires config.usePmtuDiscovery && Sane(config, carried)
    requires AllowedRun(config, Initial(config, start), events, carried)
    ensures
      var s := Run(config, Initial(config, start), events);
      var (t, probe) := s.Poll(config, time, rto, token, noise);
      var best := Min(carried, Ceiling(config));
      var converged := s.Clamp(config.DatagramCap()).Converged(config.pmtuConvergeThreshold);
      && (s.outstanding.None? && converged ==>
            t.fragmentSize <= best <= t.fragmentSize + config.pmtuConvergeThreshold && t.outstanding.None?)
      && (s.outstanding.None? && !converged ==>
            (probe.Some? <==> config.pmtuIntervalMs * MILLISECOND <= Since(time, s.lastProbe)))
      && (Completed(config, Initial(config, start), events) == 16 ==> s.outstanding.None? && converged)
  {
    RunNarrows(config, Initial(config, start), events, carried);
    AtMostSixteenProbes(config, start, events, carried);
    var s := Run(config, Initial(config, start), events);
    if s.outstanding.None? {
      PollSettlesOrProbes(config, s, carried, time, rto, token, noise);
    }
  }

  // ----- what the peer makes of the answers -----

  /** A reply with the outstanding token. */
  predicate Accepts(s: Search, e: Event) { e.Replied? && s.outstanding.Some? && e.token == s.outstanding.value.token }

  predicate HasAnswer(config: Config, s: Search, events: seq<Event>)
    decreases |events|
  {
    events != [] && (Accepts(s, events[0]) || HasAnswer(config, Step(config, s, events[0]), events[1..]))
  }

  /** The largest size answered, if larger than `best`. */
  function BestAnswered(config: Config, s: Search, events: seq<Event>, best: u16): u16
    decreases |events|
  {
    if events == [] then best
    else
      BestAnswered(config, Step(config, s, events[0]), events[1..],
                   if Accepts(s, events[0]) then Max(best, events[0].size) else best)
  }

  lemma {:induction false} RunFollowsAnswers(config: Config, s: Search, events: seq<Event>, carried: nat)
    requires s.low <= carried && AllowedRun(config, s, events, carried)
    ensures
      var t := Run(config, s, events);
      && t.low == BestAnswered(config, s, events, s.low) <= carried
      && (HasAnswer(config, s, events) || s.fragmentSize == s.low ==> t.fragmentSize == t.low)
      && (!HasAnswer(config, s, events) ==> t.low == s.low && t.fragmentSize in {s.fragmentSize, s.low})
    decreases |events|
  {
    if events != [] {
      RunFollowsAnswers(config, Step(config, s, events[0]), events[1..], carried);
    }
  }

  /** In every run from the start, once a reply has been accepted datagrams are as large as the largest size answered,
      which the path carries; before, they are of the configured size or the least one. So a configured size that
      the path carries is never left for one that it does not. */
  lemma FragmentSizeFollowsAnswers(config: Config, start: Instant, events: seq<Event>, carried: nat)
    requires config.pmtuMin <= carried && AllowedRun(config, Initial(config, start), events, carried)
    ensures
      var s, t := Initial(config, start), Run(config, Initial(config, start), events);
      && (HasAnswer(config, s, events) ==> t.fragmentSize == BestAnswered(config, s, events, config.pmtuMin) <= carried)
      && (!HasAnswer(config, s, events) ==> t.fragmentSize in {config.fragmentSize, config.pmtuMin})
      && (config.fragmentSize <= carried ==> t.fragmentSize <= carried)
  {
    RunFollowsAnswers(config, Initial(config, start), events, carried);
  }

  /** A poll gives an outstanding probe up exactly when more than the retransmission timeout and 200 ms have passed, and
      then the search goes on below its size; before that it changes nothing. */
  lemma ProbeIsGivenUpIff(
    config: Config, s: Search, time: Instant, rto: Duration, token: u32, noise: nat -> byte)
    requires config.usePmtuDiscovery && s.outstanding.Some?
    ensures
      var (t, probe) := s.Poll(config, time, rto, token, noise);
      var gone := Since(time, s.outstanding.value.sentAt);
      && probe.None?
      && (t.outstanding.None? <==> rto < gone && 200_000_000 < gone)
      && (t.outstanding.None? && 0 < s.outstanding.value.size ==>
            t.high == Min(s.high, s.outstanding.value.size - 1) && t.low == s.low && t.lastProbe == time)
      && (t.outstanding.Some? ==> t == s)
  {
  }

  /** When a probe was last sent, answered or given up. */
  function LastMark(config: Config, s: Search, events: seq<Event>, mark: Instant): Instant
    decreases |events|
  {
    if events == [] then mark
    else
      var t := Step(config, s, events[0]);
      LastMark(config, t, events[1..], if s.outstanding.Some? != t.outstanding.Some? then events[0].time else mark)
  }

  lemma {:induction false} LastProbeIsMark(config: Config, s: Search, events: seq<Event>)
    ensures Run(config, s, events).lastProbe == LastMark(config, s, events, s.lastProbe)
    decreases |events|
  {
    if events != [] {
      LastProbeIsMark(config, Step(config, s, events[0]), events[1..]);
    }
  }

  /** In every run a probe goes out only when the whole interval has passed since one was last sent, answered or
      given up. */
  lemma ProbesWait(
    config: Config, start: Instant, events: seq<Event>, time: Instant, rto: Duration, token: u32, noise: nat -> byte)
    ensures
      var s := Initial(config, start);
      Run(config, s, events).Poll(config, time, rto, token, noise).1.Some? ==>
        config.pmtuIntervalMs * 1_000_000 <= Since(time, LastMark(config, s, events, start))
  {
    LastProbeIsMark(config, Initial(config, start), events);
  }

  predicate SameBounds(s: Search, t: Search) { s.low == t.low && s.high == t.high }

  /** Whatever the configuration: a probe that is answered moves a bound exactly when the clamped bounds are at
      least 2 apart, and one that times out exactly when they are not 0 and 1. */
  lemma ProbeMovesBoundIff(
    config: Config, s: Search, time: Instant, later: Instant, rto: Duration, token: u32, noise: nat -> byte)
    requires s.outstanding.None? && s.Poll(config, time, rto, token, noise).1.Some?
    ensures
      var (t, probe) := s.Poll(config, time, rto, token, noise);
      var clamped := s.Clamp(config.DatagramCap());
      && probe.value.PMTUProbe? && t.outstanding.Some?
      && (!SameBounds(clamped, t.Reply(probe.value.size, token, later)) <==> 2 <= clamped.high - clamped.low)
      && (!SameBounds(clamped, t.Fail(later)) <==> !(clamped.low == 0 && clamped.high == 1))
  {
  }

  /** So the search can stall only at threshold 0: at any other a probe that is answered moves a bound. */
  lemma PositiveThresholdMoves(
    config: Config, s: Search, time: Instant, later: Instant, rto: Duration, token: u32, noise: nat -> byte)
    requires s.outstanding.None? && s.Poll(config, time, rto, token, noise).1.Some? && 1 <= config.pmtuConvergeThreshold
    ensures
      var (t, probe) := s.Poll(config, time, rto, token, noise);
      var clamped := s.Clamp(config.DatagramCap());
      && t.outstanding.Some? && probe.value.PMTUProbe?
      && !SameBounds(clamped, t.Reply(probe.value.size, token, later)) && !SameBounds(clamped, t.Fail(later))
  {
    ProbeMovesBoundIff(config, s, time, later, rto, token, noise);
  }

  lemma OneCommandSize(c: Command)
    ensures |EncodePacket([c])| == 3 + c.WireSize()
  {
    PacketSize([c]);
    assert [c][1..] == [];
  }

  /** Without compression a lone probe fills a datagram of exactly the size it advertises if and
      only if that size leaves room for one byte of payload. */
  lemma ProbeFillsItsSizeIff(libs: Libraries, config: Config, middle: u16, token: u32, noise: nat -> byte)
    requires config.compression == NoCompression
    ensures
      var c := ProbeCommand(config, middle, token, noise);
      var datagram := Datagram(libs, config, [c]);
      && datagram.Ok?
      && (|datagram.value| == c.size <==> ProbeOverhead(config) < c.size)
  {
    var c := ProbeCommand(config, middle, token, noise);
    OneCommandSize(c);
    var data := EncodePacket([c]);
    assert Compress(libs, data, config.compression, config.compressionThreshold) == Ok(Plain(data));
  }
}

/** Per-second bandwidth accounting. */
module Bandwidth {
  import opened Numbers
  import opened Clock

  const U32_MAX: u32 := 0xFFFF_FFFF

  /** A limit of 0 means unlimited. */
  datatype Throttle = Throttle(
    sent: u32, received: u32, windowStart: Instant, outgoingLimit: u32, incomingLimit: u32)
  {
    predicate Expired(time: Instant) { Since(time, windowStart) >= SECOND }

    function UpdateWindow(time: Instant): Throttle {
      if Expired(time) then this.(sent := 0, received := 0, windowStart := time) else this
    }

    function RecordSent(n: u32): Throttle { this.(sent := Min(sent + n, U32_MAX)) }

    function RecordReceived(n: u32): Throttle { this.(received := Min(received + n, U32_MAX)) }

    predicate CanReceive() { incomingLimit == 0 || received < incomingLimit }

    predicate CanSend() { outgoingLimit == 0 || sent < outgoingLimit }
  }

  class BandwidthThrottle {
    var bytesSentThisWindow: u32
    var bytesReceivedThisWindow: u32
    var bandwidthWindowStart: Instant
    var outgoingBandwidthLimit: u32
    var incomingBandwidthLimit: u32

    function State(): Throttle
      reads this
    {
      Throttle(bytesSentThisWindow, bytesReceivedThisWindow, bandwidthWindowStart,
               outgoingBandwidthLimit, incomingBandwidthLimit)
    }

    constructor (outgoingLimit: u32, incomingLimit: u32, startTime: Instant)
      ensures State() == Throttle(0, 0, startTime, outgoingLimit, incomingLimit)
    {
      bytesSentThisWindow, bytesReceivedThisWindow := 0, 0;
      bandwidthWindowStart := startTime;
      outgoingBandwidthLimit, incomingBandwidthLimit := outgoingLimit, incomingLimit;
    }

    method UpdateBandwidthWindow(time: Instant) returns (reset: bool)
      modifies this
      ensures State() == old(State()).UpdateWindow(time)
      ensures reset == old(State()).Expired(time)
    {
      if Since(time, bandwidthWindowStart) >= SECOND {
        bytesSentThisWindow := 0;
        bytesReceivedThisWindow := 0;
        bandwidthWindowStart := time;
        reset := true;
      } else {
        reset := false;
      }
    }

    method RecordBytesSent(n: u32)
      modifies this
      ensures State() == old(State()).RecordSent(n)
    {
      bytesSentThisWindow := if bytesSentThisWindow + n > U32_MAX then U32_MAX else bytesSentThisWindow + n;
    }

    method RecordBytesReceived(n: u32)
      modifies this
      ensures State() == old(State()).RecordReceived(n)
    {
      var sum: nat := bytesReceivedThisWindow + n;
      bytesReceivedThisWindow := if sum > U32_MAX then U32_MAX else sum;
    }

    method CanReceiveWithinBandwidth() returns (can: bool)
      ensures can == State().CanReceive()
    {
      if incomingBandwidthLimit == 0 {
        return true;
      }
      can := bytesReceivedThisWindow < incomingBandwidthLimit;
    }

    method CanSendWithinBandwidth() returns (can: bool)
      ensures can == State().CanSend()
    {
      if outgoingBandwidthLimit == 0 {
        return true;
      }
      can := bytesSentThisWindow < outgoingBandwidthLimit;
    }
  }

  // ----- runs -----

  /** One direction of a throttle: what was counted since the window began, against the limit. */
  datatype Meter = Meter(count: u32, windowStart: Instant, limit: u32) {
    predicate Expired(time: Instant) { Since(time, windowStart) >= SECOND }

    predicate Open() { limit == 0 || count < limit }
  }

  function OutMeter(t: Throttle): Meter { Meter(t.sent, t.windowStart, t.outgoingLimit) }

  function InMeter(t: Throttle): Meter { Meter(t.received, t.windowStart, t.incomingLimit) }

  /** A window check, a datagram let through, or a change of the limit. */
  datatype Event = Check(at: Instant) | Pass(at: Instant, size: u32) | Limit(at: Instant, limit: u32)

  function Step(m: Meter, e: Event): Meter {
    match e
    case Check(at) => if m.Expired(at) then Meter(0, at, m.limit) else m
    case Pass(_, size) => m.(count := Min(m.count + size, U32_MAX))
    case Limit(_, limit) => m.(limit := limit)
  }

  function Run(m: Meter, events: seq<Event>): Meter
    decreases |events|
  {
    if events == [] then m else Run(Step(m, events[0]), events[1..])
  }

  /** Every datagram passes with the check open, under a limit of at most `top`, and is at most `cap` bytes. */
  predicate Guarded(m: Meter, events: seq<Event>, cap: nat, top: u32)
    decreases |events|
  {
    events == []
    || ((events[0].Pass? ==> m.Open() && 0 < m.limit <= top && events[0].size <= cap)
        && Guarded(Step(m, events[0]), events[1..], cap, top))
  }

  lemma FirstEvent(m: Meter, e: Event, rest: seq<Event>, cap: nat, top: u32)
    ensures Run(m, [e] + rest) == Run(Step(m, e), rest)
    ensures Guarded(m, [e] + rest, cap, top) <==>
      (e.Pass? ==> m.Open() && 0 < m.limit <= top && e.size <= cap) && Guarded(Step(m, e), rest, cap, top)
    ensures Total([e] + rest) == (if e.Pass? then e.size else 0) + Total(rest)
  {
    assert ([e] + rest)[1..] == rest;
  }

  function Total(events: seq<Event>): nat {
    if events == [] then 0 else (if events[0].Pass? then events[0].size else 0) + Total(events[1..])
  }

  lemma {:induction false} TotalInParts(a: seq<Event>, b: seq<Event>)
    ensures Total(a + b) == Total(a) + Total(b)
  {
    if a == [] {
      assert a + b == b;
    } else {
      assert (a + b)[1..] == a[1..] + b;
      TotalInParts(a[1..], b);
    }
  }

  /** The bytes that really passed since the window began, when `inWindow` did before `events`. */
  function InWindow(m: Meter, inWindow: nat, events: seq<Event>): nat
    decreases |events|
  {
    if events == [] then inWindow else InWindow(Step(m, events[0]), Passed(m, inWindow, events[0]), events[1..])
  }

  function Passed(m: Meter, inWindow: nat, e: Event): nat {
    match e
    case Check(at) => if m.Expired(at) then 0 else inWindow
    case Pass(_, size) => inWindow + size
    case Limit(_, _) => inWindow
  }

  /** The counter is the true number, cut off at its maximum. */
  predicate Counts(m: Meter, inWindow: nat, cap: nat, top: u32) {
    m.count == Min(inWindow, U32_MAX) && 0 < top && inWindow <= top - 1 + cap
  }

  /** Bytes passed in one window never exceed the largest limit by more than one datagram less one byte. */
  lemma {:induction false} WindowBound(m: Meter, inWindow: nat, events: seq<Event>, cap: nat, top: u32)
    requires Counts(m, inWindow, cap, top) && Guarded(m, events, cap, top)
    ensures Counts(Run(m, events), InWindow(m, inWindow, events), cap, top)
    decreases |events|
  {
    if events != [] {
      WindowBound(Step(m, events[0]), Passed(m, inWindow, events[0]), events[1..], cap, top);
    }
  }

  /** Whatever passes, the counter is the true number of bytes of the window, cut off at its maximum. */
  lemma {:induction false} CountIsTrue(m: Meter, inWindow: nat, events: seq<Event>)
    requires m.count == Min(inWindow, U32_MAX)
    ensures Run(m, events).count == Min(InWindow(m, inWindow, events), U32_MAX)
    decreases |events|
  {
    if events != [] {
      CountIsTrue(Step(m, events[0]), Passed(m, inWindow, events[0]), events[1..]);
    }
  }

  /** So the check is open exactly as long as less than the limit has passed in the window, or there is no limit. */
  lemma OpenIff(m: Meter, events: seq<Event>)
    requires m.count == 0
    ensures Run(m, events).Open() <==> Run(m, events).limit == 0 || InWindow(m, 0, events) < Run(m, events).limit
  {
    CountIsTrue(m, 0, events);
  }

  predicate Within(events: seq<Event>, from: Instant, end: Instant) {
    forall i :: 0 <= i < |events| ==> from <= events[i].at < end
  }

  /** `soFar` bytes passed since `from`: all in this window, or this window began since. */
  lemma {:induction false} SecondBoundFrom(
    m: Meter, inWindow: nat, events: seq<Event>, cap: nat, top: u32, from: Instant, soFar: nat)
    requires Counts(m, inWindow, cap, top) && Guarded(m, events, cap, top) && Within(events, from, from + SECOND)
    requires soFar <= inWindow || (from <= m.windowStart && soFar <= top - 1 + cap + inWindow)
    ensures soFar + Total(events) <= 2 * (top - 1 + cap)
    decreases |events|
  {
    if events != [] {
      var e := events[0];
      var now := soFar + if e.Pass? then e.size else 0;
      SecondBoundFrom(Step(m, e), Passed(m, inWindow, e), events[1..], cap, top, from, now);
    }
  }

  lemma {:induction false} GuardedInParts(m: Meter, before: seq<Event>, after: seq<Event>, cap: nat, top: u32)
    ensures Guarded(m, before + after, cap, top) <==>
      Guarded(m, before, cap, top) && Guarded(Run(m, before), after, cap, top)
    ensures Run(m, before + after) == Run(Run(m, before), after)
    decreases |before|
  {
    if before == [] {
      assert before + after == after;
    } else {
      assert (before + after)[1..] == before[1..] + after;
      GuardedInParts(Step(m, before[0]), before[1..], after, cap, top);
    }
  }

  /** In every run any one second sees at most twice what one window allows. */
  lemma SecondBound(m: Meter, before: seq<Event>, during: seq<Event>, cap: nat, top: u32, from: Instant)
    requires m.count == 0 && 0 < top
    requires Guarded(m, before + during, cap, top)
    requires Within(during, from, from + SECOND)
    ensures Total(during) <= 2 * (top - 1 + cap)
  {
    GuardedInParts(m, before, during, cap, top);
    WindowBound(m, 0, before, cap, top);
    SecondBoundFrom(Run(m, before), InWindow(m, 0, before), during, cap, top, from, 0);
  }

  /** The bound of one window is reached: a limit of `limit` lets `limit - 1 + cap` bytes pass. */
  lemma WindowBoundIsTight(limit: u32, cap: u32, start: Instant)
    requires 1 < limit && 0 < cap && limit - 1 <= cap
    ensures
      var events := [Pass(start, limit - 1), Pass(start, cap)];
      Guarded(Meter(0, start, limit), events, cap, limit) && Total(events) == limit - 1 + cap
  {
    var events := [Pass(start, limit - 1), Pass(start, cap)];
    assert events[1..] == [Pass(start, cap)];
    assert Total([Pass(start, cap)]) == cap;
  }
}

/** The flush loop: datagrams leave while there are commands and the bandwidth check is open. */
module Flush {
  import opened Numbers
  import opened Clock
  import opened Command
  import opened Encoder
  import opened Codec
  import opened Framing
  import opened Config
  import opened Queue
  import opened Packer
  import opened Fragmenter
  import opened Bandwidth

  /** What a flush leaves behind, and the datagrams it sends. */
  datatype Flushed = Flushed(queue: Queue, throttle: Throttle, sent: seq<bytes>)

  /** `len as u32` */
  function Low32(n: nat): u32 { n % 0x1_0000_0000 }

  lemma {:induction false} PackShrinks(libs: Libraries, config: Config, q: Queue, maxSize: nat)
    requires PackBounded(libs, config, q, maxSize).1 != Ok(None)
    ensures |PackBounded(libs, config, q, maxSize).0.commands| < |q.commands|
  {
    EnqueueAllAtMost(q.Drained(), q.commands[Selected(config, q, maxSize)..]);
  }

  function FlushAll(libs: Libraries, config: Config, cap: nat, q: Queue, t: Throttle): Flushed
    decreases |q.commands|
  {
    if q.commands == [] || !t.CanSend() then Flushed(q, t, [])
    else
      match PackBounded(libs, config, q, cap)
      case (after, Ok(Some(datagram))) =>
        PackShrinks(libs, config, q, cap);
        var rest := FlushAll(libs, config, cap, after, t.RecordSent(Low32(|datagram|)));
        rest.(sent := [datagram] + rest.sent)
      case (after, _) => Flushed(after, t, [])
  }

  /** With `sent` sent so far, flushing `q` leads to `all`. */
  predicate LeadsTo(libs: Libraries, config: Config, cap: nat, q: Queue, t: Throttle, sent: seq<bytes>, all: Flushed) {
    var f := FlushAll(libs, config, cap, q, t);
    all == f.(sent := sent + f.sent)
  }

  lemma LeadsToStart(libs: Libraries, config: Config, cap: nat, q: Queue, t: Throttle)
    ensures LeadsTo(libs, config, cap, q, t, [], FlushAll(libs, config, cap, q, t))
  {
    var f := FlushAll(libs, config, cap, q, t);
    assert [] + f.sent == f.sent;
  }

  /** One round of the loop. */
  lemma LeadsToNext(libs: Libraries, config: Config, cap: nat, q: Queue, t: Throttle, sent: seq<bytes>, all: Flushed)
    requires LeadsTo(libs, config, cap, q, t, sent, all) && q.commands != [] && t.CanSend()
    ensures
      match PackBounded(libs, config, q, cap)
      case (after, Ok(Some(datagram))) =>
        && |after.commands| < |q.commands|
        && LeadsTo(libs, config, cap, after, t.RecordSent(Low32(|datagram|)), sent + [datagram], all)
      case (after, _) => all == Flushed(after, t, sent)
  {
    var (after, r) := PackBounded(libs, config, q, cap);
    if r.Ok? && r.value.Some? {
      PackShrinks(libs, config, q, cap);
      var rest := FlushAll(libs, config, cap, after, t.RecordSent(Low32(|r.value.value|))).sent;
      assert sent + ([r.value.value] + rest) == sent + [r.value.value] + rest;
    } else {
      assert sent + [] == sent;
    }
  }

  lemma LeadsToEnd(libs: Libraries, config: Config, cap: nat, q: Queue, t: Throttle, sent: seq<bytes>, all: Flushed)
    requires LeadsTo(libs, config, cap, q, t, sent, all) && (q.commands == [] || !t.CanSend())
    ensures all == Flushed(q, t, sent)
  {
    assert sent + [] == sent;
  }

  /** The loop keeps the byte count of the queue exact and within its limit. */
  lemma {:induction false} FlushKeepsValid(libs: Libraries, config: Config, cap: nat, q: Queue, t: Throttle)
    requires q.Valid()
    ensures FlushAll(libs, config, cap, q, t).queue.Valid()
    ensures FlushAll(libs, config, cap, q, t).queue.limit == q.limit
    decreases |q.commands|
  {
    PackSplitsQueue(libs, config, q, cap);
    var (after, r) := PackBounded(libs, config, q, cap);
    if q.commands != [] && t.CanSend() && r.Ok? && r.value.Some? {
      PackShrinks(libs, config, q, cap);
      FlushKeepsValid(libs, config, cap, after, t.RecordSent(Low32(|r.value.value|)));
    }
  }

  /** The library routines work on packets of up to `limit` bytes. */
  ghost predicate WorkUpTo(libs: Libraries, config: Config, limit: nat) {
    forall cs :: |EncodePacket(cs)| <= limit ==> Datagram(libs, config, cs).Ok?
  }

  /** The largest datagram that a flush may ask for. */
  function LargestDatagram(config: Config, cap: nat): nat { Max(cap, config.receiveBufferMaxSize) }

  /** Below 2 GiB routines that undo each other and always work are possible, for each algorithm. */
  lemma RoutinesExist(config: Config, limit: nat) returns (libs: Libraries)
    requires limit < 0x7FFF_FFFF
    ensures libs.Faithful() && WorkUpTo(libs, config, limit)
  {
    libs := Libraries(
      (d: bytes) => Ok(d), (d: bytes) => Ok(d),
      (d: bytes) => if |d| < 0x8000_0000 then Ok(d) else Err, (d: bytes, n: int) => Ok(d),
      (d: bytes) => 0);
  }

  lemma SelectedWorks(libs: Libraries, config: Config, q: Queue, cap: nat)
    requires WorkUpTo(libs, config, LargestDatagram(config, cap)) && 0 < Selected(config, q, cap)
    ensures Datagram(libs, config, q.commands[..Selected(config, q, cap)]).Ok?
  {
    SelectedFits(config, q, cap);
    PacketSize(q.commands[..Selected(config, q, cap)]);
  }

  /** Every command fits a datagram by itself; a probe may take the whole receive buffer. */
  predicate AllFit(config: Config, cap: nat, cs: seq<Command>) {
    forall i :: 0 <= i < |cs| ==>
      FitsAlone(config, if cs[i].PMTUProbe? then config.receiveBufferMaxSize else cap, cs[i])
  }

  lemma FirstIsSelected(config: Config, q: Queue, cap: nat)
    requires q.commands != [] && AllFit(config, cap, q.commands)
    ensures 0 < Selected(config, q, cap)
  {
  }

  /** With unlimited bandwidth the loop ends with an empty queue, if every command fits by itself. */
  lemma {:induction false} FlushEmptiesQueue(libs: Libraries, config: Config, cap: nat, q: Queue, t: Throttle)
    requires q.Valid() && AllFit(config, cap, q.commands) && t.outgoingLimit == 0
    requires WorkUpTo(libs, config, LargestDatagram(config, cap))
    ensures FlushAll(libs, config, cap, q, t).queue.commands == []
    decreases |q.commands|
  {
    if q.commands != [] {
      FirstIsSelected(config, q, cap);
      PackSplitsQueue(libs, config, q, cap);
      SelectedWorks(libs, config, q, cap);
      var (after, r) := PackBounded(libs, config, q, cap);
      FlushEmptiesQueue(libs, config, cap, after, t.RecordSent(Low32(|r.value.value|)));
    }
  }

  lemma QueueingEmptiesQueue(libs: Libraries, config: Config, cap: nat, q: Queue, cs: seq<Command>, t: Throttle)
    requires q.Valid() && AllFit(config, cap, q.commands) && AllFit(config, cap, cs) && t.outgoingLimit == 0
    requires WorkUpTo(libs, config, LargestDatagram(config, cap))
    ensures FlushAll(libs, config, cap, q.EnqueueAll(cs), t).queue.commands == []
  {
    EnqueueAllKeepsFit(config, cap, q, cs);
    EnqueueAllKeepsValid(q, cs);
    FlushEmptiesQueue(libs, config, cap, q.EnqueueAll(cs), t);
  }

  /** Fragmenter and packer agree: with the cap unchanged in between, queueing any reliable or unreliable
      payload and flushing ends with an empty queue, provided that what was queued before fits too. */
  lemma SendingEmptiesQueue(
    libs: Libraries, config: Config, cap: nat, q: Queue, style: Style, data: bytes, t: Throttle)
    requires q.Valid() && AllFit(config, cap, q.commands) && t.outgoingLimit == 0
    requires WorkUpTo(libs, config, LargestDatagram(config, cap))
    ensures FlushAll(libs, config, cap, q.EnqueueAll(style.Commands(config, cap, data)), t).queue.commands == []
  {
    var cs := style.Commands(config, cap, data);
    forall i | 0 <= i < |cs| ensures FitsAlone(config, cap, cs[i]) && !cs[i].PMTUProbe? {
      CommandsFit(config, cap, style, data, i);
    }
    QueueingEmptiesQueue(libs, config, cap, q, cs, t);
  }

  /** The same for unsequenced payloads, once the cap leaves room for one byte of them. */
  lemma SendingUnsequencedEmptiesQueue(
    libs: Libraries, config: Config, cap: nat, q: Queue, channelId: byte, group: u16, data: bytes, t: Throttle)
    requires q.Valid() && AllFit(config, cap, q.commands) && t.outgoingLimit == 0
    requires WorkUpTo(libs, config, LargestDatagram(config, cap)) && 1 <= Budget(config, cap, 6)
    ensures
      var cs := UnsequencedCommands(config, cap, channelId, group, data);
      FlushAll(libs, config, cap, q.EnqueueAll(cs), t).queue.commands == []
  {
    var cs := UnsequencedCommands(config, cap, channelId, group, data);
    forall i | 0 <= i < |cs| ensures FitsAlone(config, cap, cs[i]) && !cs[i].PMTUProbe? {
      UnsequencedFitsIff(config, cap, channelId, group, data, i);
    }
    QueueingEmptiesQueue(libs, config, cap, q, cs, t);
  }

  lemma {:induction false} EnqueueAllKeepsFit(config: Config, cap: nat, q: Queue, cs: seq<Command>)
    requires AllFit(config, cap, q.commands) && AllFit(config, cap, cs)
    ensures AllFit(config, cap, q.EnqueueAll(cs).commands)
    decreases |cs|
  {
    if cs != [] {
      EnqueueAllKeepsFit(config, cap, q.Enqueue(cs[0]), cs[1..]);
    }
  }

  /** With the bandwidth check open and working routines, a flush of a non-empty queue sends something exactly
      when its first command fits; otherwise it leaves everything as it was. */
  lemma FlushSendsIff(libs: Libraries, config: Config, cap: nat, q: Queue, t: Throttle)
    requires q.Valid() && q.commands != [] && t.CanSend() && WorkUpTo(libs, config, LargestDatagram(config, cap))
    ensures
      var f := FlushAll(libs, config, cap, q, t);
      && (f.sent != [] <==> FitsAlone(config, EffectiveMax(config, q, cap), q.commands[0]))
      && (f.sent == [] ==> f == Flushed(q, t, []))
  {
    PackSplitsQueue(libs, config, q, cap);
    if 0 < Selected(config, q, cap) {
      SelectedWorks(libs, config, q, cap);
    }
  }

  // ----- how far a flush goes -----

  /** Some packet of commands from `cs` cannot be encoded. */
  ghost predicate OneFails(libs: Libraries, config: Config, cs: seq<Command>) {
    exists some: seq<Command> :: some != [] && (forall c :: c in some ==> c in cs) && Datagram(libs, config, some).Err?
  }

  /** Why nothing more is sent of `q`: it is empty, the bandwidth is used up, its head fits no datagram, or an earlier
      datagram could not be encoded. */
  ghost predicate IsStuck(libs: Libraries, config: Config, cap: nat, before: seq<Command>, q: Queue, t: Throttle) {
    || q.commands == []
    || (t.outgoingLimit != 0 && t.outgoingLimit <= t.sent)
    || MostFor(config, q.commands[0], cap) < FrameBytes(config) + 2 + q.commands[0].WireSize()
    || OneFails(libs, config, before)
  }

  lemma FewerFail(libs: Libraries, config: Config, fewer: seq<Command>, cs: seq<Command>)
    requires OneFails(libs, config, fewer) && forall c :: c in fewer ==> c in cs
    ensures OneFails(libs, config, cs)
  {
    var some: seq<Command> :| some != [] && (forall c :: c in some ==> c in fewer) && Datagram(libs, config, some).Err?;
    assert forall c :: c in some ==> c in cs;
  }

  /** A flush goes on until there is a reason to stop. */
  lemma {:induction false} FlushGoesOn(libs: Libraries, config: Config, cap: nat, q: Queue, t: Throttle)
    requires q.Valid()
    ensures
      var f := FlushAll(libs, config, cap, q, t);
      IsStuck(libs, config, cap, q.commands, f.queue, f.throttle)
    decreases |q.commands|
  {
    PackSplitsQueue(libs, config, q, cap);
    var (after, r) := PackBounded(libs, config, q, cap);
    if q.commands != [] && t.CanSend() {
      var n := Selected(config, q, cap);
      if r.Err? {
        assert forall c :: c in q.commands[..n] ==> c in q.commands;
        assert Datagram(libs, config, q.commands[..n]).Err?;
      } else if r.value.Some? {
        PackShrinks(libs, config, q, cap);
        FlushGoesOn(libs, config, cap, after, t.RecordSent(Low32(|r.value.value|)));
        if OneFails(libs, config, after.commands) {
          FewerFail(libs, config, after.commands, q.commands);
        }
      }
    }
  }

  /** At most `cap` bytes, or a datagram with a probe in front that fits the receive buffer. */
  ghost predicate IsWithin(libs: Libraries, config: Config, cap: nat, datagram: bytes) {
    |datagram| <= cap || LedByProbe(libs, config, datagram)
  }

  ghost predicate LedByProbe(libs: Libraries, config: Config, datagram: bytes) {
    && |datagram| <= config.receiveBufferMaxSize
    && exists cs: seq<Command> :: cs != [] && cs[0].PMTUProbe? && Datagram(libs, config, cs) == Ok(datagram)
  }

  lemma PackIsWithin(libs: Libraries, config: Config, q: Queue, cap: nat)
    requires q.Valid()
    requires PackBounded(libs, config, q, cap).1.Ok? && PackBounded(libs, config, q, cap).1.value.Some?
    ensures IsWithin(libs, config, cap, PackBounded(libs, config, q, cap).1.value.value)
  {
    var n := Selected(config, q, cap);
    PackSplitsQueue(libs, config, q, cap);
    PackIsExact(libs, config, q, cap, n);
    assert q.commands[..n][0] == q.commands[0];
  }

  ghost predicate AllAreWithin(libs: Libraries, config: Config, cap: nat, datagrams: seq<bytes>) {
    forall d :: d in datagrams ==> IsWithin(libs, config, cap, d)
  }

  lemma OneMoreIsWithin(libs: Libraries, config: Config, cap: nat, first: bytes, rest: seq<bytes>)
    requires IsWithin(libs, config, cap, first) && AllAreWithin(libs, config, cap, rest)
    ensures AllAreWithin(libs, config, cap, [first] + rest)
  {
  }

  lemma {:induction false} FlushIsWithin(libs: Libraries, config: Config, cap: nat, q: Queue, t: Throttle)
    requires q.Valid()
    ensures AllAreWithin(libs, config, cap, FlushAll(libs, config, cap, q, t).sent)
    decreases |q.commands|
  {
    PackSplitsQueue(libs, config, q, cap);
    var (after, r) := PackBounded(libs, config, q, cap);
    if q.commands != [] && t.CanSend() && r.Ok? && r.value.Some? {
      var t' := t.RecordSent(Low32(|r.value.value|));
      PackShrinks(libs, config, q, cap);
      PackIsWithin(libs, config, q, cap);
      FlushIsWithin(libs, config, cap, after, t');
      OneMoreIsWithin(libs, config, cap, r.value.value, FlushAll(libs, config, cap, after, t').sent);
    }
  }

  // ----- a flush within its bandwidth -----

  /** The bandwidth events of sending `datagrams` at `at`. */
  function Passes(at: Instant, datagrams: seq<bytes>): seq<Event> {
    if datagrams == [] then [] else [Pass(at, Low32(|datagrams[0]|))] + Passes(at, datagrams[1..])
  }

  predicate AllWithin(datagrams: seq<bytes>, cap: nat) {
    forall i :: 0 <= i < |datagrams| ==> |datagrams[i]| <= cap
  }

  /** A flush moves the meter of what is sent by its datagrams. */
  lemma {:induction false} FlushMeters(
    libs: Libraries, config: Config, cap: nat, q: Queue, t: Throttle, at: Instant)
    ensures
      var f := FlushAll(libs, config, cap, q, t);
      Run(OutMeter(t), Passes(at, f.sent)) == OutMeter(f.throttle)
    decreases |q.commands|
  {
    var (after, r) := PackBounded(libs, config, q, cap);
    if q.commands != [] && t.CanSend() && r.Ok? && r.value.Some? {
      PackShrinks(libs, config, q, cap);
      var t' := t.RecordSent(Low32(|r.value.value|));
      FlushMeters(libs, config, cap, after, t', at);
      FirstPass(OutMeter(t), at, r.value.value, FlushAll(libs, config, cap, after, t').sent);
    }
  }

  lemma FirstPass(m: Meter, at: Instant, datagram: bytes, rest: seq<bytes>)
    ensures Run(m, Passes(at, [datagram] + rest)) == Run(Step(m, Pass(at, Low32(|datagram|))), Passes(at, rest))
  {
    assert ([datagram] + rest)[1..] == rest;
    FirstEvent(m, Pass(at, Low32(|datagram|)), Passes(at, rest), 0, 0);
  }

  /** A flush moves only the counter of what was sent. */
  lemma {:induction false} FlushOnlySends(libs: Libraries, config: Config, cap: nat, q: Queue, t: Throttle)
    ensures
      var f := FlushAll(libs, config, cap, q, t);
      f.throttle == t.(sent := f.throttle.sent)
    decreases |q.commands|
  {
    var (after, r) := PackBounded(libs, config, q, cap);
    if q.commands != [] && t.CanSend() && r.Ok? && r.value.Some? {
      PackShrinks(libs, config, q, cap);
      FlushOnlySends(libs, config, cap, after, t.RecordSent(Low32(|r.value.value|)));
    }
  }

  /** A flush sends only with the check open, and never more than the receive buffer at once. */
  lemma {:induction false} FlushIsGuarded(
    libs: Libraries, config: Config, cap: nat, q: Queue, t: Throttle, at: Instant, top: u32)
    requires q.Valid() && cap <= config.receiveBufferMaxSize < 0x1_0000_0000 && 0 < t.outgoingLimit <= top
    ensures
      var f := FlushAll(libs, config, cap, q, t);
      && Guarded(OutMeter(t), Passes(at, f.sent), config.receiveBufferMaxSize, top)
      && Run(OutMeter(t), Passes(at, f.sent)) == OutMeter(f.throttle)
      && AllWithin(f.sent, config.receiveBufferMaxSize)
    decreases |q.commands|
  {
    if q.commands != [] && t.CanSend() {
      PackSplitsQueue(libs, config, q, cap);
      var (after, r) := PackBounded(libs, config, q, cap);
      if r.Ok? && r.value.Some? {
        PackShrinks(libs, config, q, cap);
        var t' := t.RecordSent(Low32(|r.value.value|));
        FlushIsGuarded(libs, config, cap, after, t', at, top);
        GuardedOneMore(
          t, at, r.value.value, FlushAll(libs, config, cap, after, t').sent, config.receiveBufferMaxSize, top);
      }
    }
  }

  lemma GuardedOneMore(t: Throttle, at: Instant, datagram: bytes, rest: seq<bytes>, cap: nat, top: u32)
    requires t.CanSend() && |datagram| <= cap < 0x1_0000_0000 && 0 < t.outgoingLimit <= top
    requires Guarded(OutMeter(t.RecordSent(Low32(|datagram|))), Passes(at, rest), cap, top)
    ensures Guarded(OutMeter(t), Passes(at, [datagram] + rest), cap, top)
    ensures Run(OutMeter(t), Passes(at, [datagram] + rest))
      == Run(OutMeter(t.RecordSent(Low32(|datagram|))), Passes(at, rest))
  {
    assert ([datagram] + rest)[1..] == rest;
    var e := Pass(at, Low32(|datagram|));
    assert ([e] + Passes(at, rest))[1..] == Passes(at, rest);
  }
}

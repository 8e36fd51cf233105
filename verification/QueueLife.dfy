/** What a queue holds is what a receiver reads, in order, over the whole life of the queue. */
module QueueLife {
  import opened Numbers
  import opened Command
  import opened Encoder
  import opened Decoder
  import opened Codec
  import opened Framing
  import opened Config
  import opened Records
  import opened Queue
  import opened Packer
  import opened Fragmenter
  import opened Bandwidth
  import opened Flush

  function Reader(libs: Libraries, config: Config): bytes -> Result<seq<Command>> {
    (datagram: bytes) => ReadBack(libs, config, datagram)
  }

  /** What a receiver reads out of the datagrams, in order; nothing if one cannot be read. */
  function ReadAll(libs: Libraries, config: Config, datagrams: seq<bytes>): Result<seq<Command>> {
    ReadEach(Reader(libs, config), datagrams)
  }

  /** The next datagram of a flush holds at most 255 commands, each within its length field. */
  predicate PackReadable(config: Config, q: Queue, cap: nat) {
    Selected(config, q, cap) <= 255 && forall i :: 0 <= i < Selected(config, q, cap) ==> Encodable(q.commands[i])
  }

  /** So does each datagram of a flush, and the library routines work on each. */
  predicate FlushReadable(libs: Libraries, config: Config, cap: nat, q: Queue, t: Throttle)
    decreases |q.commands|
  {
    q.commands == [] || !t.CanSend()
    || match PackBounded(libs, config, q, cap)
       case (after, Ok(Some(datagram))) =>
         PackShrinks(libs, config, q, cap);
         PackReadable(config, q, cap) && FlushReadable(libs, config, cap, after, t.RecordSent(Low32(|datagram|)))
       case (_, r) => r.Ok?
  }

  /** `received` and what is left in `last` are together `all`. */
  predicate Balances(received: Result<seq<Command>>, last: seq<Command>, all: seq<Command>) {
    received.Ok? && received.value + last == all
  }

  lemma Regroup(a: seq<Command>, b: seq<Command>, c: seq<Command>)
    ensures a + b + c == a + (b + c)
  {
  }

  lemma SamePrefix(a: seq<Command>, b: seq<Command>, c: seq<Command>, d: seq<Command>)
    requires a + b == c + d && |a| == |c|
    ensures a == c && b == d
  {
    assert a == (a + b)[..|a|] && c == (c + d)[..|c|];
    assert b == (a + b)[|a|..] && d == (c + d)[|c|..];
  }

  /** Two parts that are each no longer than they should be are right together only if each is right. */
  lemma BalanceSplits(
    front: seq<Command>, mid: seq<Command>, first: seq<Command>, rest: seq<Command>, last: seq<Command>)
    requires |first| <= |front| && |rest| + |last| <= |mid|
    ensures first + rest + last == front + mid <==> first == front && rest + last == mid
  {
    Regroup(first, rest, last);
    if first + rest + last == front + mid {
      assert |first + rest + last| == |front + mid|;
      SamePrefix(first, rest + last, front, mid);
    }
  }

  lemma DecodedCount(cs: seq<Command>)
    requires DecodePacket(EncodePacket(cs)).Ok?
    ensures |DecodePacket(EncodePacket(cs)).value| <= |cs|
  {
    ReadsNoMore(EncodeCommand, GetCommand, cs);
  }

  predicate IsTail(left: seq<Command>, all: seq<Command>) { |left| <= |all| && left == all[|all| - |left|..] }

  lemma TailOfTail(left: seq<Command>, all: seq<Command>, n: nat)
    requires n <= |all| && IsTail(left, all[n..])
    ensures IsTail(left, all)
  {
  }

  /** A receiver never reads more than was sent. */
  lemma {:induction false} FlushReadsNoMore(libs: Libraries, config: Config, cap: nat, q: Queue, t: Throttle)
    requires q.Valid() && libs.Faithful() && ReadAll(libs, config, FlushAll(libs, config, cap, q, t).sent).Ok?
    ensures
      var f := FlushAll(libs, config, cap, q, t);
      |ReadAll(libs, config, f.sent).value| + |f.queue.commands| <= |q.commands|
    decreases |q.commands|
  {
    PackSplitsQueue(libs, config, q, cap);
    var (after, r) := PackBounded(libs, config, q, cap);
    if q.commands != [] && t.CanSend() && r.Ok? && r.value.Some? {
      var t' := t.RecordSent(Low32(|r.value.value|));
      PackShrinks(libs, config, q, cap);
      ReadFirstIff(Reader(libs, config), r.value.value, FlushAll(libs, config, cap, after, t').sent);
      PackReadsNoMore(libs, config, q, cap);
      FlushReadsNoMore(libs, config, cap, after, t');
    }
  }

  lemma PackReadsNoMore(libs: Libraries, config: Config, q: Queue, cap: nat)
    requires q.Valid() && libs.Faithful()
    requires PackBounded(libs, config, q, cap).1.Ok? && PackBounded(libs, config, q, cap).1.value.Some?
    requires ReadBack(libs, config, PackBounded(libs, config, q, cap).1.value.value).Ok?
    ensures |ReadBack(libs, config, PackBounded(libs, config, q, cap).1.value.value).value| <= Selected(config, q, cap)
  {
    var n := Selected(config, q, cap);
    PackSplitsQueue(libs, config, q, cap);
    DatagramReadsBack(libs, config, q.commands[..n]);
    DecodedCount(q.commands[..n]);
  }

  ghost predicate FlushBalances(libs: Libraries, config: Config, cap: nat, q: Queue, t: Throttle) {
    var f := FlushAll(libs, config, cap, q, t);
    Balances(ReadAll(libs, config, f.sent), f.queue.commands, q.commands)
  }

  /** One datagram of the loop. */
  lemma PackBalancesIff(libs: Libraries, config: Config, cap: nat, q: Queue, t: Throttle)
    requires q.Valid() && libs.Faithful() && q.commands != [] && t.CanSend()
    requires PackBounded(libs, config, q, cap).1.Ok? && PackBounded(libs, config, q, cap).1.value.Some?
    ensures
      var (after, r) := PackBounded(libs, config, q, cap);
      FlushBalances(libs, config, cap, q, t) <==>
        PackReadable(config, q, cap)
        && FlushBalances(libs, config, cap, after, t.RecordSent(Low32(|r.value.value|)))
  {
    var n := Selected(config, q, cap);
    var (after, r) := PackBounded(libs, config, q, cap);
    var t' := t.RecordSent(Low32(|r.value.value|));
    var rest := FlushAll(libs, config, cap, after, t');
    PackSplitsQueue(libs, config, q, cap);
    PackShrinks(libs, config, q, cap);
    ReadBackIff(libs, config, q, cap);
    ReadFirstIff(Reader(libs, config), r.value.value, rest.sent);
    var read, more := ReadBack(libs, config, r.value.value), ReadAll(libs, config, rest.sent);
    if read.Ok? {
      PackReadsNoMore(libs, config, q, cap);
    }
    if more.Ok? {
      FlushReadsNoMore(libs, config, cap, after, t');
    }
    FirstAndRestIff(q.commands, n, read, more, rest.queue.commands, ReadAll(libs, config, [r.value.value] + rest.sent));
  }

  lemma FirstAndRestIff(
    all: seq<Command>, n: nat, read: Result<seq<Command>>, more: Result<seq<Command>>, last: seq<Command>,
    both: Result<seq<Command>>)
    requires n <= |all| && (both.Ok? <==> read.Ok? && more.Ok?) && (both.Ok? ==> both.value == read.value + more.value)
    requires (read.Ok? ==> |read.value| <= n) && (more.Ok? ==> |more.value| + |last| <= |all| - n)
    ensures Balances(both, last, all) <==> read == Ok(all[..n]) && Balances(more, last, all[n..])
  {
    assert all == all[..n] + all[n..];
    if both.Ok? {
      BalanceSplits(all[..n], all[n..], read.value, more.value, last);
    }
  }

  /** Conservation, exactly: the queue before a flush is what the receiver reads ++ the queue after it if and only
      if the routines work on each datagram and each holds at most 255 commands within their length fields. */
  lemma {:induction false} FlushConservesIff(libs: Libraries, config: Config, cap: nat, q: Queue, t: Throttle)
    requires q.Valid() && libs.Faithful()
    ensures FlushBalances(libs, config, cap, q, t) <==> FlushReadable(libs, config, cap, q, t)
    decreases |q.commands|
  {
    PackSplitsQueue(libs, config, q, cap);
    var (after, r) := PackBounded(libs, config, q, cap);
    if q.commands != [] && t.CanSend() && r != Ok(None) {
      PackShrinks(libs, config, q, cap);
      if r.Ok? {
        PackBalancesIff(libs, config, cap, q, t);
        FlushConservesIff(libs, config, cap, after, t.RecordSent(Low32(|r.value.value|)));
      }
    } else {
      assert [] + q.commands == q.commands && q.commands[0..] == q.commands;
    }
  }

  /** Neither a datagram of `cap` bytes nor one with a probe in front has room for 256 commands. */
  predicate CountsFit(config: Config, cap: nat) { LargestDatagram(config, cap) < config.StaticOverhead() + 1536 }

  /** It is enough that no datagram has room for 256 commands and that the routines work. */
  lemma {:induction false} SmallFlushIsReadable(libs: Libraries, config: Config, cap: nat, q: Queue, t: Throttle)
    requires q.Valid() && CountsFit(config, cap) && WorkUpTo(libs, config, LargestDatagram(config, cap))
    ensures FlushReadable(libs, config, cap, q, t)
    decreases |q.commands|
  {
    PackSplitsQueue(libs, config, q, cap);
    var (after, r) := PackBounded(libs, config, q, cap);
    if q.commands != [] && t.CanSend() && r != Ok(None) {
      PackShrinks(libs, config, q, cap);
      SelectedWorks(libs, config, q, cap);
      FewAreSelected(config, q, cap);
      SmallFlushIsReadable(libs, config, cap, after, t.RecordSent(Low32(|r.value.value|)));
    }
  }

  // ----- enqueues and flushes in any order -----

  /** A command is enqueued, or the queue is flushed with the cap and the bandwidth of the moment. */
  datatype QueueEvent = Enqueues(command: Command) | Flushes(cap: nat, throttle: Throttle)

  function QueueStep(libs: Libraries, config: Config, q: Queue, e: QueueEvent): Queue {
    match e
    case Enqueues(c) => q.Enqueue(c)
    case Flushes(cap, t) => FlushAll(libs, config, cap, q, t).queue
  }

  function Gives(libs: Libraries, config: Config, q: Queue, e: QueueEvent): seq<bytes> {
    match e
    case Enqueues(_) => []
    case Flushes(cap, t) => FlushAll(libs, config, cap, q, t).sent
  }

  /** An enqueued command is taken unless it is dropped at the limit. */
  function Takes(q: Queue, e: QueueEvent): seq<Command> {
    if e.Enqueues? && q.Accepts(e.command) then [e.command] else []
  }

  predicate StepReadable(libs: Libraries, config: Config, q: Queue, e: QueueEvent) {
    e.Flushes? ==> FlushReadable(libs, config, e.cap, q, e.throttle)
  }

  function QueueAfter(libs: Libraries, config: Config, q: Queue, events: seq<QueueEvent>): Queue
    decreases |events|
  {
    if events == [] then q else QueueAfter(libs, config, QueueStep(libs, config, q, events[0]), events[1..])
  }

  function SentOver(libs: Libraries, config: Config, q: Queue, events: seq<QueueEvent>): seq<bytes>
    decreases |events|
  {
    if events == [] then []
    else Gives(libs, config, q, events[0]) + SentOver(libs, config, QueueStep(libs, config, q, events[0]), events[1..])
  }

  /** The commands that were not dropped at the limit. */
  function AcceptedOver(libs: Libraries, config: Config, q: Queue, events: seq<QueueEvent>): seq<Command>
    decreases |events|
  {
    if events == [] then []
    else Takes(q, events[0]) + AcceptedOver(libs, config, QueueStep(libs, config, q, events[0]), events[1..])
  }

  /** Every flush is readable. */
  predicate LifeReadable(libs: Libraries, config: Config, q: Queue, events: seq<QueueEvent>)
    decreases |events|
  {
    events == []
    || (StepReadable(libs, config, q, events[0])
        && LifeReadable(libs, config, QueueStep(libs, config, q, events[0]), events[1..]))
  }

  lemma StepKeepsValid(libs: Libraries, config: Config, q: Queue, e: QueueEvent)
    requires q.Valid()
    ensures QueueStep(libs, config, q, e).Valid()
  {
    match e {
      case Enqueues(c) => EnqueueKeepsValid(q, c);
      case Flushes(cap, t) => FlushKeepsValid(libs, config, cap, q, t);
    }
  }

  /** The part of the queue that a flush leaves is its tail. */
  lemma {:induction false} FlushLeavesTail(libs: Libraries, config: Config, cap: nat, q: Queue, t: Throttle)
    requires q.Valid()
    ensures IsTail(FlushAll(libs, config, cap, q, t).queue.commands, q.commands)
    decreases |q.commands|
  {
    PackSplitsQueue(libs, config, q, cap);
    var (after, r) := PackBounded(libs, config, q, cap);
    if q.commands != [] && t.CanSend() && r.Ok? && r.value.Some? {
      var t' := t.RecordSent(Low32(|r.value.value|));
      PackShrinks(libs, config, q, cap);
      FlushLeavesTail(libs, config, cap, after, t');
      TailOfTail(FlushAll(libs, config, cap, after, t').queue.commands, q.commands, Selected(config, q, cap));
    }
  }

  ghost predicate StepBalances(libs: Libraries, config: Config, q: Queue, e: QueueEvent) {
    Balances(ReadAll(libs, config, Gives(libs, config, q, e)), QueueStep(libs, config, q, e).commands,
             q.commands + Takes(q, e))
  }

  /** What an event gives, read back, is never longer than what leaves the queue by it; the rest is the tail. */
  ghost predicate StepIsTail(libs: Libraries, config: Config, q: Queue, e: QueueEvent) {
    var all, left := q.commands + Takes(q, e), QueueStep(libs, config, q, e).commands;
    && IsTail(left, all)
    && (ReadAll(libs, config, Gives(libs, config, q, e)).Ok? ==>
          |ReadAll(libs, config, Gives(libs, config, q, e)).value| + |left| <= |all|)
  }

  lemma EnqueueConserves(libs: Libraries, config: Config, q: Queue, c: Command)
    ensures StepIsTail(libs, config, q, Enqueues(c)) && StepBalances(libs, config, q, Enqueues(c))
  {
    var now := q.Enqueue(c).commands;
    assert q.commands + [] == q.commands && [] + now == now;
    assert now == q.commands + Takes(q, Enqueues(c));
  }

  lemma FlushStepConservesIff(libs: Libraries, config: Config, q: Queue, cap: nat, t: Throttle)
    requires q.Valid() && libs.Faithful()
    ensures StepIsTail(libs, config, q, Flushes(cap, t))
    ensures StepBalances(libs, config, q, Flushes(cap, t)) <==> FlushReadable(libs, config, cap, q, t)
  {
    assert q.commands + [] == q.commands;
    FlushConservesIff(libs, config, cap, q, t);
    FlushLeavesTail(libs, config, cap, q, t);
    if ReadAll(libs, config, FlushAll(libs, config, cap, q, t).sent).Ok? {
      FlushReadsNoMore(libs, config, cap, q, t);
    }
  }

  lemma StepConservesIff(libs: Libraries, config: Config, q: Queue, e: QueueEvent)
    requires q.Valid() && libs.Faithful()
    ensures StepIsTail(libs, config, q, e)
    ensures StepBalances(libs, config, q, e) <==> StepReadable(libs, config, q, e)
  {
    match e {
      case Enqueues(c) => EnqueueConserves(libs, config, q, c);
      case Flushes(cap, t) => FlushStepConservesIff(libs, config, q, cap, t);
    }
  }

  ghost predicate LifeBalances(libs: Libraries, config: Config, q: Queue, events: seq<QueueEvent>) {
    Balances(ReadAll(libs, config, SentOver(libs, config, q, events)), QueueAfter(libs, config, q, events).commands,
             q.commands + AcceptedOver(libs, config, q, events))
  }

  lemma {:induction false} LifeReadsNoMore(libs: Libraries, config: Config, q: Queue, events: seq<QueueEvent>)
    requires q.Valid() && libs.Faithful() && ReadAll(libs, config, SentOver(libs, config, q, events)).Ok?
    ensures
      |ReadAll(libs, config, SentOver(libs, config, q, events)).value| + |QueueAfter(libs, config, q, events).commands|
        <= |q.commands| + |AcceptedOver(libs, config, q, events)|
    decreases |events|
  {
    if events != [] {
      var e, mid := events[0], QueueStep(libs, config, q, events[0]);
      StepKeepsValid(libs, config, q, e);
      StepConservesIff(libs, config, q, e);
      ReadInPartsIff(Reader(libs, config), Gives(libs, config, q, e), SentOver(libs, config, mid, events[1..]));
      LifeReadsNoMore(libs, config, mid, events[1..]);
    }
  }

  /** An event and a life after it balance together exactly when each does. */
  lemma TogetherIff(
    all: seq<Command>, left: seq<Command>, more: seq<Command>, last: seq<Command>,
    first: Result<seq<Command>>, rest: Result<seq<Command>>, both: Result<seq<Command>>)
    requires both.Ok? <==> first.Ok? && rest.Ok?
    requires both.Ok? ==> both.value == first.value + rest.value
    requires IsTail(left, all)
    requires first.Ok? ==> |first.value| + |left| <= |all|
    requires rest.Ok? ==> |rest.value| + |last| <= |left| + |more|
    ensures Balances(both, last, all + more) <==> Balances(first, left, all) && Balances(rest, last, left + more)
  {
    if both.Ok? {
      var front := all[..|all| - |left|];
      assert all == front + left;
      Regroup(front, left, more);
      BalanceSplits(front, left + more, first.value, rest.value, last);
      if first.value + left == all {
        SamePrefix(first.value, left, front, left);
      }
    }
  }

  /** First in, first out, exactly: over any life of a queue, whatever the caps and the bandwidth, what the receiver
      reads from all datagrams ++ what still waits == what was there ++ what was accepted, if and only if
      every flush is readable. */
  lemma {:induction false} QueueConservesIff(libs: Libraries, config: Config, q: Queue, events: seq<QueueEvent>)
    requires q.Valid() && libs.Faithful()
    ensures LifeBalances(libs, config, q, events) <==> LifeReadable(libs, config, q, events)
    decreases |events|
  {
    if events == [] {
      assert [] + q.commands == q.commands + [];
    } else {
      var e, mid := events[0], QueueStep(libs, config, q, events[0]);
      StepKeepsValid(libs, config, q, e);
      StepConservesIff(libs, config, q, e);
      QueueConservesIff(libs, config, mid, events[1..]);
      LifeSplits(libs, config, q, events);
    }
  }

  lemma LifeSplits(libs: Libraries, config: Config, q: Queue, events: seq<QueueEvent>)
    requires q.Valid() && libs.Faithful() && events != [] && StepIsTail(libs, config, q, events[0])
    requires QueueStep(libs, config, q, events[0]).Valid()
    ensures LifeBalances(libs, config, q, events) <==>
      && StepBalances(libs, config, q, events[0])
      && LifeBalances(libs, config, QueueStep(libs, config, q, events[0]), events[1..])
  {
    var e, mid := events[0], QueueStep(libs, config, q, events[0]);
    var given, sent := Gives(libs, config, q, e), SentOver(libs, config, mid, events[1..]);
    ReadInPartsIff(Reader(libs, config), given, sent);
    if ReadAll(libs, config, sent).Ok? {
      LifeReadsNoMore(libs, config, mid, events[1..]);
    }
    var more := AcceptedOver(libs, config, mid, events[1..]);
    Regroup(q.commands, Takes(q, e), more);
    TogetherIff(q.commands + Takes(q, e), mid.commands, more, QueueAfter(libs, config, mid, events[1..]).commands,
                ReadAll(libs, config, given), ReadAll(libs, config, sent), ReadAll(libs, config, given + sent));
  }

  /** It is enough that no flush has room for 256 commands in a datagram and that the routines work. */
  lemma {:induction false} SmallLifeIsReadable(libs: Libraries, config: Config, q: Queue, events: seq<QueueEvent>)
    requires q.Valid()
    requires forall i :: 0 <= i < |events| && events[i].Flushes? ==>
      CountsFit(config, events[i].cap) && WorkUpTo(libs, config, LargestDatagram(config, events[i].cap))
    ensures LifeReadable(libs, config, q, events)
    decreases |events|
  {
    if events != [] {
      StepKeepsValid(libs, config, q, events[0]);
      if events[0].Flushes? {
        SmallFlushIsReadable(libs, config, events[0].cap, q, events[0].throttle);
      }
      SmallLifeIsReadable(libs, config, QueueStep(libs, config, q, events[0]), events[1..]);
    }
  }

  /** A command at the head that fits none of the caps blocks the queue for good: nothing is ever sent, and
      everything that waits keeps waiting. */
  lemma {:induction false} OversizeBlocksForever(libs: Libraries, config: Config, q: Queue, events: seq<QueueEvent>)
    requires q.commands != []
    requires forall i :: 0 <= i < |events| && events[i].Flushes? ==>
      !FitsAlone(config, EffectiveMax(config, q, events[i].cap), q.commands[0])
    ensures SentOver(libs, config, q, events) == []
    ensures q.commands <= QueueAfter(libs, config, q, events).commands
    decreases |events|
  {
    if events != [] {
      OversizeBlocksForever(libs, config, QueueStep(libs, config, q, events[0]), events[1..]);
    }
  }
}

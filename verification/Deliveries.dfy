/** What the arms of the command processor owe to the windows and channels behind them. */
module Deliveries {
  import opened Numbers
  import opened Command
  import opened Processor
  import opened Channel
  import Acknowledgment
  import C = ChannelHistory
  import L = LateArrivals
  import Q = SequencedHistory
  import U = UnsequencedHistory

  /** A step with the absolute number of its unsequenced group; for other commands the number means nothing. */
  datatype Numbered = Numbered(step: Step, number: nat) {
    predicate IsUnsequenced() { step.command.SendUnsequenced? }

    predicate Valid() { IsUnsequenced() ==> step.command.unsequencedGroup == Wrap(number) }
  }

  function ArrivalsOf(ns: seq<Numbered>): seq<nat> {
    if ns == [] then [] else (if ns[0].IsUnsequenced() then [ns[0].number] else []) + ArrivalsOf(ns[1..])
  }

  /** The groups whose packets a run of commands hands up, in order. */
  function GroupsUp(i: ValidInbox, ns: seq<Numbered>): seq<nat>
    decreases |ns|
  {
    if ns == [] then []
    else
      (if ns[0].IsUnsequenced() && Out(i, ns[0].step) != [] then [ns[0].number] else [])
      + GroupsUp(Next(i, ns[0].step), ns[1..])
  }

  lemma OnlyUnsequencedTouchesWindow(i: ValidInbox, step: Step)
    requires !step.command.SendUnsequenced?
    ensures Next(i, step).window == i.window
  {
  }

  lemma UnsequencedStep(i: ValidInbox, r: U.Receiver, n: Numbered)
    requires r.window == i.window && n.Valid() && n.IsUnsequenced()
    ensures Next(i, n.step).window == r.Arrive(n.number).window
    ensures Out(i, n.step) != [] <==> r.Delivers(n.number)
  {
  }

  /** Whatever other commands come in between, the groups handed up are those that the window lets through. */
  lemma {:induction false} GroupsUpIsHandedUp(i: ValidInbox, r: U.Receiver, ns: seq<Numbered>)
    requires r.window == i.window && forall k :: 0 <= k < |ns| ==> ns[k].Valid()
    ensures GroupsUp(i, ns) == U.HandedUp(r, ArrivalsOf(ns))
    decreases |ns|
  {
    if ns != [] {
      var rest := ArrivalsOf(ns[1..]);
      if ns[0].IsUnsequenced() {
        UnsequencedStep(i, r, ns[0]);
        GroupsUpIsHandedUp(Next(i, ns[0].step), r.Arrive(ns[0].number), ns[1..]);
        assert ([ns[0].number] + rest)[0] == ns[0].number && ([ns[0].number] + rest)[1..] == rest;
      } else {
        OnlyUnsequencedTouchesWindow(i, ns[0].step);
        GroupsUpIsHandedUp(Next(i, ns[0].step), r, ns[1..]);
        assert [] + rest == rest;
        assert [] + GroupsUp(Next(i, ns[0].step), ns[1..]) == GroupsUp(Next(i, ns[0].step), ns[1..]);
      }
    }
  }

  /** Over every run of commands with its groups in range, no unsequenced group is handed up twice, across any wraps. */
  lemma NoGroupTwice(i: ValidInbox, r: U.Receiver, ns: seq<Numbered>)
    requires r.Valid() && r.window == i.window && (forall k :: 0 <= k < |ns| ==> ns[k].Valid())
    requires U.InRangeRun(r, ArrivalsOf(ns))
    ensures U.Once(GroupsUp(i, ns), r.delivered, ArrivalsOf(ns))
  {
    GroupsUpIsHandedUp(i, r, ns);
    U.HandedUpOnce(r, ArrivalsOf(ns));
  }

  // ----- ordered packets -----

  /** A payload that goes through a channel in order, whether one command or a last fragment brought it. */
  datatype Placed = Placed(channelId: byte, number: u16, data: bytes)

  /** What the step puts into a channel. */
  function PlacedBy(i: ValidInbox, step: Step): Option<Placed> {
    match step.command
    case SendReliable(channelId, number, ordered, data) =>
      if ordered then Some(Placed(channelId, number, data)) else None
    case SendFragment(_, number, _, fragmentId, _, data) =>
      var g := i.Joined(number, StartOf(step.command, step.around), fragmentId, data);
      if g.Reassemble().Some? && g.ordered then Some(Placed(g.channelId, number, g.Reassemble().value)) else None
    case _ => None
  }

  predicate IsOn(channelId: byte, p: Option<Placed>) { p.Some? && p.value.channelId == channelId }

  /** Two channels alike but for the latest sequenced number. */
  predicate SameOrder(c: Channel, d: Channel) { c.expected == d.expected && c.buffered == d.buffered }

  lemma {:induction false} SameOrderSameReady(c: Channel, d: Channel)
    requires SameOrder(c, d)
    ensures c.Ready() == d.Ready() && SameOrder(c.AfterReady(), d.AfterReady())
    decreases |c.buffered|
  {
    if c.expected in c.buffered {
      SameOrderSameReady(c.Take(), d.Take());
    }
  }

  function Payloads(packets: seq<Packet>): seq<bytes> {
    seq(|packets|, k requires 0 <= k < |packets| => packets[k].data)
  }

  lemma PayloadsOfPackets(channelId: byte, ready: seq<bytes>, ordering: Acknowledgment.OrderingGuarantee)
    ensures Payloads(PacketsOf(channelId, ready, ordering)) == ready
  {
  }

  lemma PlainStep(i: ValidInbox, step: Step)
    requires !step.command.SendReliable? && !step.command.SendFragment? && !step.command.SendUnreliableSequenced?
    ensures Next(i, step).channels == i.channels && PlacedBy(i, step).None?
  {
  }

  lemma SequencedStep(i: ValidInbox, step: Step)
    requires step.command.SendUnreliableSequenced?
    ensures
      var channelId := step.command.channelId;
      Next(i, step).channels == i.channels[channelId := i.ChannelOf(channelId).Sequence(step.command.number)]
    ensures PlacedBy(i, step).None?
  {
  }

  /** What a placed payload does to a peer's channels, and what it hands up. */
  predicate Places(i: ValidInbox, p: Placed, after: ValidInbox, packets: seq<Packet>) {
    var b := i.ChannelOf(p.channelId).Buffer(p.number, p.data);
    after.channels == i.channels[p.channelId := b.AfterReady()] && Payloads(packets) == b.Ready()
  }

  lemma ReliableChannels(i: ValidInbox, step: Step)
    requires step.command.SendReliable?
    ensures
      var c := step.command;
      Next(i, step).channels ==
        if c.ordered then i.channels[c.channelId := i.ChannelOf(c.channelId).Buffer(c.number, c.data).AfterReady()]
        else i.channels
  {
  }

  lemma ReliablePayloads(i: ValidInbox, step: Step)
    requires step.command.SendReliable? && step.command.ordered
    ensures
      var c := step.command;
      Payloads(Out(i, step)) == i.ChannelOf(c.channelId).Buffer(c.number, c.data).Ready()
  {
    var c := step.command;
    PayloadsOfPackets(
      c.channelId, i.ChannelOf(c.channelId).Buffer(c.number, c.data).Ready(), Acknowledgment.Ordered(None));
  }

  lemma ReliableStep(i: ValidInbox, step: Step)
    requires step.command.SendReliable?
    ensures
      var p := PlacedBy(i, step);
      if p.Some? then Places(i, p.value, Next(i, step), Out(i, step)) else Next(i, step).channels == i.channels
  {
    ReliableChannels(i, step);
    if step.command.ordered {
      ReliablePayloads(i, step);
    }
  }

  lemma FragmentChannels(i: ValidInbox, step: Step)
    requires step.command.SendFragment?
    ensures
      var p := PlacedBy(i, step);
      Next(i, step).channels ==
        if p.None? then i.channels
        else
          var b := i.ChannelOf(p.value.channelId).Buffer(p.value.number, p.value.data);
          i.channels[p.value.channelId := b.AfterReady()]
  {
    var c := step.command;
    var heard, start := i.Hear(step.around.time), StartOf(c, step.around);
    assert heard.Ack(c.number, 0).channels == i.channels;
    assert Next(i, step) == heard.Ack(c.number, 0).TakeFragment(c.number, start, c.fragmentId, c.data);
  }

  lemma FragmentPayloads(i: ValidInbox, step: Step)
    requires step.command.SendFragment? && PlacedBy(i, step).Some?
    ensures
      var p := PlacedBy(i, step).value;
      Payloads(Out(i, step)) == i.ChannelOf(p.channelId).Buffer(p.number, p.data).Ready()
  {
    var p := PlacedBy(i, step).value;
    PayloadsOfPackets(
      p.channelId, i.ChannelOf(p.channelId).Buffer(p.number, p.data).Ready(), Acknowledgment.Unordered);
  }

  lemma FragmentStep(i: ValidInbox, step: Step)
    requires step.command.SendFragment?
    ensures
      var p := PlacedBy(i, step);
      if p.Some? then Places(i, p.value, Next(i, step), Out(i, step)) else Next(i, step).channels == i.channels
  {
    FragmentChannels(i, step);
    if PlacedBy(i, step).Some? {
      FragmentPayloads(i, step);
    }
  }

  lemma ChannelAfter(
    i: ValidInbox, p: Option<Placed>, after: ValidInbox, packets: seq<Packet>, channelId: byte)
    requires if p.Some? then Places(i, p.value, after, packets) else after.channels == i.channels
    ensures
      if IsOn(channelId, p) then
        var b := i.ChannelOf(channelId).Buffer(p.value.number, p.value.data);
        Payloads(packets) == b.Ready() && SameOrder(after.ChannelOf(channelId), b.AfterReady())
      else SameOrder(after.ChannelOf(channelId), i.ChannelOf(channelId))
  {
  }

  /** A step puts into one channel what it places there, hands up what that makes ready, and leaves the order of
      every other channel alone. */
  lemma OrderStep(i: ValidInbox, step: Step, channelId: byte)
    ensures
      var p := PlacedBy(i, step);
      if IsOn(channelId, p) then
        var b := i.ChannelOf(channelId).Buffer(p.value.number, p.value.data);
        Payloads(Out(i, step)) == b.Ready() && SameOrder(Next(i, step).ChannelOf(channelId), b.AfterReady())
      else SameOrder(Next(i, step).ChannelOf(channelId), i.ChannelOf(channelId))
  {
    if step.command.SendReliable? {
      ReliableStep(i, step);
      ChannelAfter(i, PlacedBy(i, step), Next(i, step), Out(i, step), channelId);
    } else if step.command.SendFragment? {
      FragmentStep(i, step);
      ChannelAfter(i, PlacedBy(i, step), Next(i, step), Out(i, step), channelId);
    } else if step.command.SendUnreliableSequenced? {
      SequencedStep(i, step);
    } else {
      PlainStep(i, step);
    }
  }

  /** A step with the absolute number of the payload that it places, if any. */
  datatype Ordinal = Ordinal(step: Step, number: nat)

  /** What a run places in the channel are packets of the stream `payload`. */
  predicate FromStream(i: ValidInbox, channelId: byte, payload: nat -> bytes, os: seq<Ordinal>)
    decreases |os|
  {
    os == []
    || (var p := PlacedBy(i, os[0].step);
        && (IsOn(channelId, p) ==> p.value.number == Wrap(os[0].number) && p.value.data == payload(os[0].number))
        && FromStream(Next(i, os[0].step), channelId, payload, os[1..]))
  }

  /** Their numbers. */
  function NumbersOn(i: ValidInbox, channelId: byte, os: seq<Ordinal>): seq<nat>
    decreases |os|
  {
    if os == [] then []
    else
      (if IsOn(channelId, PlacedBy(i, os[0].step)) then [os[0].number] else [])
      + NumbersOn(Next(i, os[0].step), channelId, os[1..])
  }

  /** The payloads that a run hands up through the channel. */
  function OrderedUp(i: ValidInbox, channelId: byte, os: seq<Ordinal>): seq<bytes>
    decreases |os|
  {
    if os == [] then []
    else
      (if IsOn(channelId, PlacedBy(i, os[0].step)) then Payloads(Out(i, os[0].step)) else [])
      + OrderedUp(Next(i, os[0].step), channelId, os[1..])
  }

  lemma OutputsFirst(c: Channel, payload: nat -> bytes, n: nat, rest: seq<nat>)
    ensures
      var b := c.Buffer(Wrap(n), payload(n));
      C.Outputs(c, payload, [n] + rest) == b.Ready() + C.Outputs(b.AfterReady(), payload, rest)
  {
    assert ([n] + rest)[0] == n && ([n] + rest)[1..] == rest;
  }

  /** Whatever other commands come in between, what the channel hands up is what the channel alone would. */
  lemma {:induction false} OrderedUpIsOutputs(
    i: ValidInbox, c: Channel, channelId: byte, payload: nat -> bytes, os: seq<Ordinal>)
    requires SameOrder(i.ChannelOf(channelId), c) && FromStream(i, channelId, payload, os)
    ensures OrderedUp(i, channelId, os) == C.Outputs(c, payload, NumbersOn(i, channelId, os))
    decreases |os|
  {
    if os != [] {
      var step, n := os[0].step, os[0].number;
      var next, rest := Next(i, step), NumbersOn(Next(i, step), channelId, os[1..]);
      OrderStep(i, step, channelId);
      if IsOn(channelId, PlacedBy(i, step)) {
        var b := c.Buffer(Wrap(n), payload(n));
        SameOrderSameReady(i.ChannelOf(channelId).Buffer(Wrap(n), payload(n)), b);
        OrderedUpIsOutputs(next, b.AfterReady(), channelId, payload, os[1..]);
        OutputsFirst(c, payload, n, rest);
      } else {
        OrderedUpIsOutputs(next, c, channelId, payload, os[1..]);
        assert [] + rest == rest && [] + OrderedUp(next, channelId, os[1..]) == OrderedUp(next, channelId, os[1..]);
      }
    }
  }

  /** Over every run of commands, whole packets and fragments mixed with anything else, that starts with an unused
      channel: if what its ordered packets leave out of place comes in time, the channel hands up exactly the stream up
      to the first gap. */
  lemma OrderedStreamIsHandedUp(i: ValidInbox, channelId: byte, payload: nat -> bytes, os: seq<Ordinal>)
    requires SameOrder(i.ChannelOf(channelId), NewChannel()) && FromStream(i, channelId, payload, os)
    requires L.InTime(NumbersOn(i, channelId, os))
    ensures OrderedUp(i, channelId, os) == C.Stream(payload, 0, L.GapOf(NumbersOn(i, channelId, os)))
  {
    OrderedUpIsOutputs(i, NewChannel(), channelId, payload, os);
    L.OrderIsRightIff(payload, NumbersOn(i, channelId, os));
  }

  // ----- sequenced packets -----

  predicate IsSequencedOn(channelId: byte, c: Command) { c.SendUnreliableSequenced? && c.channelId == channelId }

  lemma {:induction false} AfterReadyKeepsLatest(c: Channel)
    ensures c.AfterReady().latest == c.latest
    decreases |c.buffered|
  {
    if c.expected in c.buffered {
      AfterReadyKeepsLatest(c.Take());
    }
  }

  lemma SequencedOut(i: ValidInbox, step: Step)
    requires step.command.SendUnreliableSequenced?
    ensures
      var c := step.command;
      Out(i, step) == if i.ChannelOf(c.channelId).Newer(c.number)
        then [Packet(c.channelId, c.data, DeliveryGuarantee.Unreliable, Acknowledgment.Sequenced(None))] else []
  {
  }

  lemma PlacedKeepsLatest(i: ValidInbox, p: Placed, after: ValidInbox, packets: seq<Packet>, channelId: byte)
    requires Places(i, p, after, packets)
    ensures after.ChannelOf(channelId).latest == i.ChannelOf(channelId).latest
  {
    AfterReadyKeepsLatest(i.ChannelOf(p.channelId).Buffer(p.number, p.data));
  }

  /** A sequenced packet on the channel is handed up, with its payload, exactly if it is newer; no other command touches
      the latest number of the channel. */
  lemma LatestStep(i: ValidInbox, step: Step, channelId: byte)
    ensures
      var c, before := step.command, i.ChannelOf(channelId);
      var after := Next(i, step).ChannelOf(channelId);
      if IsSequencedOn(channelId, c) then
        && after.latest == before.Sequence(c.number).latest
        && Out(i, step) == if before.Newer(c.number)
             then [Packet(channelId, c.data, DeliveryGuarantee.Unreliable, Acknowledgment.Sequenced(None))] else []
      else after.latest == before.latest
  {
    var p := PlacedBy(i, step);
    if step.command.SendReliable? || step.command.SendFragment? {
      if step.command.SendReliable? {
        ReliableStep(i, step);
      } else {
        FragmentStep(i, step);
      }
      if p.Some? {
        PlacedKeepsLatest(i, p.value, Next(i, step), Out(i, step), channelId);
      }
    } else if step.command.SendUnreliableSequenced? {
      SequencedStep(i, step);
      SequencedOut(i, step);
    } else {
      PlainStep(i, step);
    }
  }

  /** The numbers of the sequenced packets of a run on the channel. */
  function SequencedNumbers(channelId: byte, os: seq<Ordinal>): seq<nat> {
    if os == [] then []
    else
      (if IsSequencedOn(channelId, os[0].step.command) then [os[0].number] else [])
      + SequencedNumbers(channelId, os[1..])
  }

  /** The numbers of those that are handed up. */
  function SequencedUp(i: ValidInbox, channelId: byte, os: seq<Ordinal>): seq<nat>
    decreases |os|
  {
    if os == [] then []
    else
      (if IsSequencedOn(channelId, os[0].step.command) && Out(i, os[0].step) != [] then [os[0].number] else [])
      + SequencedUp(Next(i, os[0].step), channelId, os[1..])
  }

  predicate AreNumbered(channelId: byte, os: seq<Ordinal>) {
    forall k :: 0 <= k < |os| && IsSequencedOn(channelId, os[k].step.command) ==>
      os[k].step.command.number == Wrap(os[k].number)
  }

  /** Whatever other commands come in between, the sequenced packets handed up are those that the channel passes on. */
  lemma {:induction false} SequencedUpIsPassed(i: ValidInbox, c: Channel, channelId: byte, os: seq<Ordinal>)
    requires c.latest == i.ChannelOf(channelId).latest && AreNumbered(channelId, os)
    ensures SequencedUp(i, channelId, os) == Q.PassedBy(c, SequencedNumbers(channelId, os))
    decreases |os|
  {
    if os != [] {
      var step, n := os[0].step, os[0].number;
      var next, rest := Next(i, step), SequencedNumbers(channelId, os[1..]);
      LatestStep(i, step, channelId);
      if IsSequencedOn(channelId, step.command) {
        SequencedUpIsPassed(next, c.Sequence(Wrap(n)), channelId, os[1..]);
        assert ([n] + rest)[0] == n && ([n] + rest)[1..] == rest;
      } else {
        SequencedUpIsPassed(next, c, channelId, os[1..]);
        assert [] + rest == rest;
        assert [] + SequencedUp(next, channelId, os[1..]) == SequencedUp(next, channelId, os[1..]);
      }
    }
  }
}

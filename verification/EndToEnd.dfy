/** A payload from the sender's queue to the receiver's user, through a network that reorders and duplicates. */
module EndToEnd {
  import opened Numbers
  import opened Clock
  import opened Command
  import opened Framing
  import opened Config
  import opened Queue
  import opened Packer
  import opened Records
  import opened Fragmenter
  import opened Flush
  import opened QueueLife
  import opened Fragments
  import opened Processor
  import opened Deliveries
  import Acknowledgment

  /** The fragments of one payload, and how they are sent: on which channel, under which number they share, and
      whether reliably and in order. */
  datatype Sending = Sending(style: Style, chunks: seq<bytes>) {
    predicate Valid() { 0 < |chunks| <= 255 }

    function Piece(k: nat): Command
      requires Valid() && k < |chunks|
    {
      match style
      case UnreliableData(channelId, number) => SendUnreliableFragment(channelId, number, k, |chunks|, chunks[k])
      case ReliableData(channelId, number, ordered) =>
        SendFragment(channelId, number, ordered, k, |chunks|, chunks[k])
    }

    predicate IsPiece(c: Command)
      requires Valid()
    {
      (c.SendUnreliableFragment? || c.SendFragment?) && c.fragmentId < |chunks| && c == Piece(c.fragmentId)
    }

    /** A command that leaves the fragments under this number alone. */
    predicate IsForeign(c: Command) { IsForeignTo(style.number, c) }

    /** Nothing but these fragments comes in under their number. */
    predicate Undisturbed(cs: seq<Command>)
      requires Valid()
    {
      forall j :: 0 <= j < |cs| ==> IsPiece(cs[j]) || IsForeign(cs[j])
    }

    /** All fragments are among `arrived`. */
    predicate AllIn(arrived: set<byte>) { forall k: byte :: k < |chunks| ==> k in arrived }
  }

  predicate IsForeignTo(number: u16, c: Command) {
    !(c.SendUnreliableFragment? && c.number == number) && !(c.SendFragment? && c.number == number)
  }

  predicate IsOrdered(style: Style) { style.ReliableData? && style.ordered }

  /** The packet that a payload sent out of order is handed up as. */
  function Whole(style: Style, data: bytes): Packet {
    Packet(style.channelId, data, if style.ReliableData? then Reliable else Unreliable, Acknowledgment.Unordered)
  }

  /** The step delivers `data`: an ordered payload is placed in its channel under its number, any other is handed up. */
  predicate Delivers(style: Style, data: bytes, i: ValidInbox, step: Step) {
    if IsOrdered(style) then PlacedBy(i, step) == Some(Placed(style.channelId, style.number, data))
    else PlacedBy(i, step).None? && Out(i, step) == [Whole(style, data)]
  }

  predicate IsSilent(i: ValidInbox, step: Step) { PlacedBy(i, step).None? && Out(i, step) == [] }

  /** The indices of the fragments of `p` that came in. */
  function Arrived(p: Sending, steps: seq<Step>): set<byte>
    requires p.Valid()
  {
    if steps == [] then {}
    else
      var c := steps[|steps| - 1].command;
      Arrived(p, steps[..|steps| - 1]) + if p.IsPiece(c) then {c.fragmentId} else {}
  }

  /** Until all fragments are in, the receiver holds exactly those that are. */
  predicate Holds(p: Sending, i: Inbox, arrived: set<byte>)
    requires p.Valid()
  {
    HoldsPart(p, i.fragments, arrived)
  }

  predicate HoldsPart(p: Sending, fragments: map<u16, Group>, arrived: set<byte>)
    requires p.Valid()
  {
    if arrived == {} then p.style.number !in fragments
    else p.style.number in fragments && IsPart(p, fragments[p.style.number], arrived)
  }

  predicate IsPart(p: Sending, g: Group, arrived: set<byte>)
    requires p.Valid()
  {
    && g.channelId == p.style.channelId && g.fragmentCount == |p.chunks| && g.ordered == IsOrdered(p.style)
    && g.fragments.Keys == arrived
    && forall k :: k in g.fragments ==> k < |p.chunks| && g.fragments[k] == p.chunks[k]
  }

  predicate SameUnder(number: u16, a: map<u16, Group>, b: map<u16, Group>) {
    && (number in a <==> number in b)
    && (number in a ==> a[number] == b[number])
  }

  lemma AddFragmentLeavesOthers(i: Inbox, number: u16, start: Group, fragmentId: byte, data: bytes, other: u16)
    requires number != other
    ensures SameUnder(other, i.fragments, i.AddFragment(number, start, fragmentId, data).fragments)
    ensures SameUnder(other, i.fragments, i.TakeFragment(number, start, fragmentId, data).fragments)
  {
  }

  lemma OtherReliableLeavesGroup(i: ValidInbox, c: Command, s: Surroundings, number: u16)
    requires c.SendFragment? && c.number != number
    ensures SameUnder(number, i.fragments, i.After(c, s).fragments)
  {
    ReliableFragmentSettles(i, c, s);
    AddFragmentLeavesOthers(i, c.number, StartOf(c, s), c.fragmentId, c.data, number);
  }

  lemma OtherUnreliableLeavesGroup(i: ValidInbox, c: Command, s: Surroundings, number: u16)
    requires c.SendUnreliableFragment? && c.number != number
    ensures SameUnder(number, i.fragments, i.After(c, s).fragments)
  {
    AddFragmentLeavesOthers(
      i.Hear(s.time), c.number, Group(c.channelId, c.fragmentCount, false, map[], s.time), c.fragmentId, c.data,
      number);
  }

  lemma ForeignLeavesGroup(p: Sending, i: ValidInbox, step: Step)
    requires p.IsForeign(step.command)
    ensures SameUnder(p.style.number, i.fragments, Next(i, step).fragments)
  {
    if step.command.SendFragment? {
      OtherReliableLeavesGroup(i, step.command, step.around, p.style.number);
    } else if step.command.SendUnreliableFragment? {
      OtherUnreliableLeavesGroup(i, step.command, step.around, p.style.number);
    } else {
      OnlyFragmentsTouchGroups(i, step);
    }
  }

  lemma ForeignKeepsHolds(p: Sending, i: ValidInbox, arrived: set<byte>, step: Step)
    requires p.Valid() && Holds(p, i, arrived) && p.IsForeign(step.command)
    ensures Holds(p, Next(i, step), arrived)
  {
    ForeignLeavesGroup(p, i, step);
    var before, after := i.fragments, Next(i, step).fragments;
    assert HoldsPart(p, before, arrived) && SameUnder(p.style.number, before, after);
  }

  function Start(p: Sending, time: Instant): Group
    requires p.Valid()
  {
    Group(p.style.channelId, |p.chunks|, IsOrdered(p.style), map[], time)
  }

  /** The group under the number of `p` with fragment `k` added. */
  function WithPiece(p: Sending, i: Inbox, k: nat, time: Instant): Group
    requires p.Valid() && k < |p.chunks|
  {
    i.Joined(p.style.number, Start(p, time), k, p.chunks[k])
  }

  lemma JoinedIsPart(p: Sending, i: Inbox, arrived: set<byte>, k: nat, time: Instant)
    requires p.Valid() && k < |p.chunks| && Holds(p, i, arrived)
    ensures IsPart(p, WithPiece(p, i, k, time), arrived + {k})
  {
  }

  lemma CompleteIff(p: Sending, g: Group, arrived: set<byte>)
    requires p.Valid() && IsPart(p, g, arrived)
    ensures g.IsComplete() <==> p.AllIn(arrived)
  {
    assert |g.fragments| == |arrived|;
    var all := Below(|p.chunks|);
    assert p.AllIn(arrived) <==> arrived == all;
    if g.IsComplete() {
      SameSizeSubset(arrived, all);
    }
  }

  lemma {:induction false} JoinedIsConcat(p: Sending, g: Group, arrived: set<byte>, from: nat)
    requires p.Valid() && from <= |p.chunks| && IsPart(p, g, arrived) && p.AllIn(arrived)
    ensures JoinedFrom(g.fragments, from, |p.chunks|) == Some(Concat(p.chunks[from..]))
    decreases |p.chunks| - from
  {
    if from < |p.chunks| {
      JoinedIsConcat(p, g, arrived, from + 1);
      assert p.chunks[from..][1..] == p.chunks[from + 1..];
    }
  }

  lemma ReassembledIff(p: Sending, g: Group, arrived: set<byte>)
    requires p.Valid() && IsPart(p, g, arrived)
    ensures g.Reassemble() == if p.AllIn(arrived) then Some(Concat(p.chunks)) else None
  {
    CompleteIff(p, g, arrived);
    if p.AllIn(arrived) {
      JoinedIsConcat(p, g, arrived, 0);
      assert p.chunks[0..] == p.chunks;
    }
  }

  /** What one fragment does, given the group that it makes. */
  predicate Effects(p: Sending, i: ValidInbox, g: Group, step: Step)
    requires p.Valid()
  {
    var payload := g.Reassemble();
    && (payload.None? ==> IsSilent(i, step))
    && (payload.Some? && g.ordered ==>
          PlacedBy(i, step) == Some(Placed(g.channelId, p.style.number, payload.value)))
    && (payload.Some? && !g.ordered ==>
          PlacedBy(i, step).None? && Out(i, step) == [Packet(g.channelId, payload.value, Whole(p.style, []).delivery,
                                                             Acknowledgment.Unordered)])
    && (!g.IsComplete() ==>
          p.style.number in Next(i, step).fragments && Next(i, step).fragments[p.style.number] == g)
  }

  lemma UnreliablePieceEffects(p: Sending, i: ValidInbox, k: nat, s: Surroundings)
    requires p.Valid() && k < |p.chunks| && p.style.UnreliableData? && !WithPiece(p, i, k, s.time).ordered
    ensures Effects(p, i, WithPiece(p, i, k, s.time), Step(p.Piece(k), s))
  {
  }

  lemma ReliablePieceEffects(p: Sending, i: ValidInbox, k: nat, s: Surroundings)
    requires p.Valid() && k < |p.chunks| && p.style.ReliableData?
    ensures Effects(p, i, WithPiece(p, i, k, s.time), Step(p.Piece(k), s))
  {
    ReliableFragmentSettles(i, p.Piece(k), s);
  }

  /** One fragment comes in: it does nothing until it is the last one missing, then it delivers the payload. */
  lemma PieceDelivers(p: Sending, i: ValidInbox, arrived: set<byte>, k: nat, s: Surroundings)
    requires p.Valid() && k < |p.chunks| && Holds(p, i, arrived)
    ensures
      var step := Step(p.Piece(k), s);
      if p.AllIn(arrived + {k}) then Delivers(p.style, Concat(p.chunks), i, step)
      else IsSilent(i, step) && Holds(p, Next(i, step), arrived + {k})
  {
    JoinedIsPart(p, i, arrived, k, s.time);
    if p.style.UnreliableData? {
      UnreliablePieceEffects(p, i, k, s);
    } else {
      ReliablePieceEffects(p, i, k, s);
    }
    ReassembledIff(p, WithPiece(p, i, k, s.time), arrived + {k});
    CompleteIff(p, WithPiece(p, i, k, s.time), arrived + {k});
  }

  function CommandsOf(steps: seq<Step>): seq<Command> {
    seq(|steps|, j requires 0 <= j < |steps| => steps[j].command)
  }

  lemma {:induction false} HoldsUntilComplete(p: Sending, i: ValidInbox, steps: seq<Step>)
    requires p.Valid() && Holds(p, i, {}) && p.Undisturbed(CommandsOf(steps)) && !p.AllIn(Arrived(p, steps))
    ensures Holds(p, After(i, steps), Arrived(p, steps))
    decreases |steps|
  {
    if steps != [] {
      var before, last := steps[..|steps| - 1], steps[|steps| - 1];
      assert CommandsOf(steps)[|before|] == last.command && CommandsOf(before) == CommandsOf(steps)[..|before|];
      HoldsUntilComplete(p, i, before);
      OneMoreHolds(p, After(i, before), Arrived(p, before), last);
    }
  }

  lemma OneMoreHolds(p: Sending, i: ValidInbox, arrived: set<byte>, step: Step)
    requires p.Valid() && Holds(p, i, arrived)
    requires p.IsPiece(step.command) || p.IsForeign(step.command)
    ensures
      var now := arrived + if p.IsPiece(step.command) then {step.command.fragmentId} else {};
      !p.AllIn(now) ==> Holds(p, Next(i, step), now)
  {
    if p.IsPiece(step.command) {
      PieceDelivers(p, i, arrived, step.command.fragmentId, step.around);
    } else {
      ForeignKeepsHolds(p, i, arrived, step);
      assert arrived + {} == arrived;
    }
  }

  /** The payload is delivered, whole, by the very fragment with which all have come in, and no fragment before that
      one does anything. */
  lemma DeliveredWhenComplete(p: Sending, i: ValidInbox, steps: seq<Step>, j: nat)
    requires p.Valid() && Holds(p, i, {}) && p.Undisturbed(CommandsOf(steps))
    requires j < |steps| && p.IsPiece(steps[j].command) && !p.AllIn(Arrived(p, steps[..j]))
    ensures
      if p.AllIn(Arrived(p, steps[..j + 1])) then Delivers(p.style, Concat(p.chunks), After(i, steps[..j]), steps[j])
      else IsSilent(After(i, steps[..j]), steps[j])
  {
    assert CommandsOf(steps[..j]) == CommandsOf(steps)[..j];
    HoldsUntilComplete(p, i, steps[..j]);
    assert steps[..j + 1][..j] == steps[..j];
    PieceDelivers(p, After(i, steps[..j]), Arrived(p, steps[..j]), steps[j].command.fragmentId, steps[j].around);
  }

  lemma {:induction false} ArrivedIff(p: Sending, steps: seq<Step>, k: byte)
    requires p.Valid()
    ensures k in Arrived(p, steps) <==> k < |p.chunks| && p.Piece(k) in CommandsOf(steps)
    decreases |steps|
  {
    if steps != [] {
      var before := steps[..|steps| - 1];
      ArrivedIff(p, before, k);
      assert CommandsOf(steps) == CommandsOf(before) + [steps[|steps| - 1].command];
    }
  }

  /** Where among the first `n` steps the last missing fragment comes in. */
  lemma {:induction false} CompletionPoint(p: Sending, steps: seq<Step>, n: nat) returns (j: nat)
    requires p.Valid() && n <= |steps| && p.AllIn(Arrived(p, steps[..n]))
    ensures j < n && p.IsPiece(steps[j].command)
    ensures !p.AllIn(Arrived(p, steps[..j])) && p.AllIn(Arrived(p, steps[..j + 1]))
    decreases n
  {
    NoneIsNotAll(p, steps);
    assert steps[..n][..n - 1] == steps[..n - 1];
    if p.AllIn(Arrived(p, steps[..n - 1])) {
      j := CompletionPoint(p, steps, n - 1);
    } else {
      j := n - 1;
    }
  }

  lemma NoneIsNotAll(p: Sending, steps: seq<Step>)
    requires p.Valid()
    ensures !p.AllIn(Arrived(p, steps[..0]))
  {
    assert 0 !in Arrived(p, steps[..0]);
  }

  lemma {:induction false} ArrivedGrows(p: Sending, steps: seq<Step>, h: nat, n: nat)
    requires p.Valid() && h <= n <= |steps|
    ensures Arrived(p, steps[..h]) <= Arrived(p, steps[..n])
    decreases n
  {
    if h < n {
      ArrivedGrows(p, steps, h, n - 1);
      ArrivedOneMore(p, steps, n);
    }
  }

  lemma ArrivedOneMore(p: Sending, steps: seq<Step>, n: nat)
    requires p.Valid() && 0 < n <= |steps|
    ensures Arrived(p, steps[..n - 1]) <= Arrived(p, steps[..n])
  {
    assert steps[..n][..n - 1] == steps[..n - 1];
  }

  lemma NotEarlier(p: Sending, steps: seq<Step>, h: nat, n: nat)
    requires p.Valid() && h <= n <= |steps| && !p.AllIn(Arrived(p, steps[..n]))
    ensures !p.AllIn(Arrived(p, steps[..h]))
  {
    ArrivedGrows(p, steps, h, n);
    ArrivedGrows(p, steps, n, |steps|);
  }

  /** At step `j` a fragment of `p` delivers `data`, and no fragment before it did anything. */
  predicate DeliversAt(p: Sending, data: bytes, i: ValidInbox, steps: seq<Step>, j: nat)
    requires p.Valid()
  {
    && j < |steps| && p.IsPiece(steps[j].command) && Delivers(p.style, data, After(i, steps[..j]), steps[j])
    && SilentBefore(p, i, steps, j)
  }

  /** No fragment of `p` among the first `j` steps does anything. */
  predicate SilentBefore(p: Sending, i: ValidInbox, steps: seq<Step>, j: nat)
    requires p.Valid() && j <= |steps|
  {
    forall h :: 0 <= h < j && p.IsPiece(steps[h].command) ==> IsSilent(After(i, steps[..h]), steps[h])
  }

  /** As long as a fragment is missing none does anything. */
  lemma SilentUntilComplete(p: Sending, i: ValidInbox, steps: seq<Step>, j: nat)
    requires p.Valid() && Holds(p, i, {}) && p.Undisturbed(CommandsOf(steps))
    requires j <= |steps| && !p.AllIn(Arrived(p, steps[..j]))
    ensures SilentBefore(p, i, steps, j)
  {
    forall h | 0 <= h < j && p.IsPiece(steps[h].command) ensures IsSilent(After(i, steps[..h]), steps[h]) {
      NotEarlier(p, steps, h, j);
      NotEarlier(p, steps, h + 1, j);
      DeliveredWhenComplete(p, i, steps, h);
    }
  }

  /** Once all fragments have come in the payload has been delivered by the fragment that completed them, and no
      earlier fragment did anything. */
  lemma CompleteRunDelivers(p: Sending, i: ValidInbox, steps: seq<Step>) returns (j: nat)
    requires p.Valid() && Holds(p, i, {}) && p.Undisturbed(CommandsOf(steps)) && p.AllIn(Arrived(p, steps))
    ensures DeliversAt(p, Concat(p.chunks), i, steps, j)
    ensures !p.AllIn(Arrived(p, steps[..j])) && p.AllIn(Arrived(p, steps[..j + 1]))
  {
    assert steps[..|steps|] == steps;
    j := CompletionPoint(p, steps, |steps|);
    DeliveredWhenComplete(p, i, steps, j);
    SilentUntilComplete(p, i, steps, j);
  }

  // ----- through the network -----

  /** What one datagram is read as. */
  function Contents(libs: Libraries, config: Config, datagram: bytes): seq<Command> {
    match ReadBack(libs, config, datagram)
    case Err => []
    case Ok(cs) => cs
  }

  lemma InSomeDatagram(libs: Libraries, config: Config, sent: seq<bytes>, c: Command)
    requires ReadAll(libs, config, sent).Ok?
    ensures c in ReadAll(libs, config, sent).value <==>
      exists d {:trigger Contents(libs, config, d)} :: d in sent && c in Contents(libs, config, d)
  {
    InSomePacket(Reader(libs, config), sent, c);
    assert forall d :: Reader(libs, config)(d) == ReadBack(libs, config, d);
    if d :| d in sent && Reader(libs, config)(d).Ok? && c in Reader(libs, config)(d).value {
      assert c in Contents(libs, config, d);
    }
    if d {:trigger Contents(libs, config, d)} :| d in sent && c in Contents(libs, config, d) {
      assert c in Reader(libs, config)(d).value;
    }
  }

  lemma InLastArrivalOrBefore(libs: Libraries, config: Config, arrivals: seq<Arrival>, c: Command)
    requires arrivals != []
    ensures
      var before, last := arrivals[..|arrivals| - 1], arrivals[|arrivals| - 1];
      c in CommandsOf(AllSteps(libs, config, arrivals)) <==>
        c in CommandsOf(AllSteps(libs, config, before)) || c in Contents(libs, config, last.datagram)
  {
    var before, last := arrivals[..|arrivals| - 1], arrivals[|arrivals| - 1];
    var steps, more := AllSteps(libs, config, before), StepsIn(libs, config, last);
    assert CommandsOf(steps + more) == CommandsOf(steps) + CommandsOf(more);
    assert CommandsOf(more) == Contents(libs, config, last.datagram);
  }

  lemma {:induction false} InSomeArrival(libs: Libraries, config: Config, arrivals: seq<Arrival>, c: Command)
    ensures c in CommandsOf(AllSteps(libs, config, arrivals)) <==>
      exists a {:trigger Contents(libs, config, a.datagram)} :: a in arrivals && c in Contents(libs, config, a.datagram)
    decreases |arrivals|
  {
    if arrivals != [] {
      var before, last := arrivals[..|arrivals| - 1], arrivals[|arrivals| - 1];
      InSomeArrival(libs, config, before, c);
      InLastArrivalOrBefore(libs, config, arrivals, c);
      assert forall a :: a in arrivals <==> a in before || a == last;
    }
  }

  /** Every arrival is a datagram that was sent, or carries nothing under the number of `p`. */
  predicate FromSender(libs: Libraries, config: Config, p: Sending, sent: seq<bytes>, arrivals: seq<Arrival>) {
    forall a :: a in arrivals ==>
      a.datagram in sent || forall c :: c in Contents(libs, config, a.datagram) ==> p.IsForeign(c)
  }

  /** Every datagram sent has arrived at least once. */
  predicate EachArrived(sent: seq<bytes>, arrivals: seq<Arrival>) {
    forall d :: d in sent ==> exists a :: a in arrivals && a.datagram == d
  }

  lemma NetworkIsUndisturbed(libs: Libraries, config: Config, p: Sending, sent: seq<bytes>, arrivals: seq<Arrival>)
    requires p.Valid() && FromSender(libs, config, p, sent, arrivals)
    requires ReadAll(libs, config, sent).Ok? && p.Undisturbed(ReadAll(libs, config, sent).value)
    ensures p.Undisturbed(CommandsOf(AllSteps(libs, config, arrivals)))
  {
    var cs := CommandsOf(AllSteps(libs, config, arrivals));
    forall j | 0 <= j < |cs| ensures p.IsPiece(cs[j]) || p.IsForeign(cs[j]) {
      InSomeArrival(libs, config, arrivals, cs[j]);
      InSomeDatagram(libs, config, sent, cs[j]);
    }
  }

  /** Every fragment is in some datagram that has arrived. */
  ghost predicate AllCarried(libs: Libraries, config: Config, p: Sending, arrivals: seq<Arrival>)
    requires p.Valid()
  {
    forall k: nat :: k < |p.chunks| ==> IsCarried(libs, config, p.Piece(k), arrivals)
  }

  ghost predicate IsCarried(libs: Libraries, config: Config, c: Command, arrivals: seq<Arrival>) {
    exists a {:trigger Contents(libs, config, a.datagram)} :: a in arrivals && c in Contents(libs, config, a.datagram)
  }

  lemma AllInIffCarried(libs: Libraries, config: Config, p: Sending, arrivals: seq<Arrival>)
    requires p.Valid()
    ensures p.AllIn(Arrived(p, AllSteps(libs, config, arrivals))) <==> AllCarried(libs, config, p, arrivals)
  {
    var steps := AllSteps(libs, config, arrivals);
    forall k: byte | k < |p.chunks|
      ensures k in Arrived(p, steps) <==> IsCarried(libs, config, p.Piece(k), arrivals)
    {
      ArrivedIff(p, steps, k);
      InSomeArrival(libs, config, arrivals, p.Piece(k));
    }
  }

  /** What was sent and read back has been carried once every datagram has arrived. */
  lemma ReadIsCarried(libs: Libraries, config: Config, sent: seq<bytes>, arrivals: seq<Arrival>, c: Command)
    requires EachArrived(sent, arrivals) && ReadAll(libs, config, sent).Ok? && c in ReadAll(libs, config, sent).value
    ensures IsCarried(libs, config, c, arrivals)
  {
    InSomeDatagram(libs, config, sent, c);
    var d {:trigger Contents(libs, config, d)} :| d in sent && c in Contents(libs, config, d);
    var a :| a in arrivals && a.datagram == d;
    assert c in Contents(libs, config, a.datagram);
  }

  /** The fragments that a payload too long for one command is sent in. */
  function SendingOf(config: Config, cap: nat, style: Style, data: bytes): Sending
    requires 0 < Budget(config, cap, style.FragmentHeader())
  {
    Sending(style, Chunks(data, Budget(config, cap, style.FragmentHeader())))
  }

  predicate IsFragmented(config: Config, cap: nat, style: Style, data: bytes) {
    && 1 <= Budget(config, cap, style.SingleHeader()) < |data|
    && style.SendsWhole(config, cap, data)
  }

  predicate IsShort(config: Config, cap: nat, style: Style, data: bytes) {
    1 <= Budget(config, cap, style.SingleHeader()) && |data| <= Budget(config, cap, style.SingleHeader())
  }

  /** The one command that a short payload is sent in. */
  function WholeCommand(style: Style, data: bytes): Command {
    match style
    case UnreliableData(channelId, _) => SendUnreliable(channelId, data)
    case ReliableData(channelId, number, ordered) => SendReliable(channelId, number, ordered, data)
  }

  lemma CommandsArePieces(config: Config, cap: nat, style: Style, data: bytes)
    requires IsFragmented(config, cap, style, data)
    ensures
      var p := SendingOf(config, cap, style, data);
      var cs := style.Commands(config, cap, data);
      && p.Valid() && |cs| == |p.chunks| && (forall k :: 0 <= k < |cs| ==> cs[k] == p.Piece(k))
      && Concat(p.chunks) == data
  {
    ChunkCount(data, Budget(config, cap, style.FragmentHeader()));
    ChunksConcat(data, Budget(config, cap, style.FragmentHeader()));
  }

  lemma CommandIsWhole(config: Config, cap: nat, style: Style, data: bytes)
    requires IsShort(config, cap, style, data)
    ensures style.Commands(config, cap, data) == [WholeCommand(style, data)]
  {
  }

  /** The sender's queue once `data` is enqueued behind whatever was queued. */
  function WithPayload(config: Config, cap: nat, q: Queue, style: Style, data: bytes): Queue {
    q.EnqueueAll(style.Commands(config, cap, data))
  }

  /** No fragment under `number` is among `cs`. */
  predicate NoneUnder(number: u16, cs: seq<Command>) {
    forall c :: c in cs ==> IsForeignTo(number, c)
  }

  predicate NoneEnqueued(number: u16, events: seq<QueueEvent>) {
    forall i :: 0 <= i < |events| && events[i].Enqueues? ==> IsForeignTo(number, events[i].command)
  }

  lemma {:induction false} AcceptedAreForeign(
    libs: Libraries, config: Config, q: Queue, events: seq<QueueEvent>, number: u16)
    requires NoneEnqueued(number, events)
    ensures NoneUnder(number, AcceptedOver(libs, config, q, events))
    decreases |events|
  {
    if events != [] {
      AcceptedAreForeign(libs, config, QueueStep(libs, config, q, events[0]), events[1..], number);
    }
  }

  /** From the queue `start`, with the payload in it, every flush can be read. */
  ghost predicate SenderWorks(libs: Libraries, config: Config, start: Queue, events: seq<QueueEvent>) {
    libs.Faithful() && LifeReadable(libs, config, start, events)
  }

  /** Everything that was queued and accepted has been sent or still waits, in order. */
  lemma SentOrWaiting(
    libs: Libraries, config: Config, cap: nat, q: Queue, style: Style, data: bytes, events: seq<QueueEvent>)
    requires q.Valid() && SenderWorks(libs, config, WithPayload(config, cap, q, style, data), events)
    requires q.AcceptsAll(style.Commands(config, cap, data))
    ensures
      var start := WithPayload(config, cap, q, style, data);
      var received := ReadAll(libs, config, SentOver(libs, config, start, events));
      && received.Ok?
      && received.value + QueueAfter(libs, config, start, events).commands
           == q.commands + style.Commands(config, cap, data) + AcceptedOver(libs, config, start, events)
  {
    var cs := style.Commands(config, cap, data);
    EnqueueAllKeepsAll(q, cs);
    EnqueueAllKeepsValid(q, cs);
    QueueConservesIff(libs, config, WithPayload(config, cap, q, style, data), events);
  }

  /** However the commands are split into what was read and what waits, no other fragments are in what was read. */
  lemma ReadIsUndisturbed(
    config: Config, cap: nat, q: Queue, style: Style, data: bytes,
    accepted: seq<Command>, received: seq<Command>, waiting: seq<Command>)
    requires IsFragmented(config, cap, style, data)
    requires received + waiting == q.commands + style.Commands(config, cap, data) + accepted
    requires NoneUnder(style.number, q.commands) && NoneUnder(style.number, accepted)
    ensures
      var p := SendingOf(config, cap, style, data);
      && p.Valid() && p.Undisturbed(received)
      && forall k: nat :: k < |p.chunks| ==> p.Piece(k) in received || p.Piece(k) in waiting
  {
    CommandsArePieces(config, cap, style, data);
    var p := SendingOf(config, cap, style, data);
    var cs := style.Commands(config, cap, data);
    var all := q.commands + cs + accepted;
    forall j | 0 <= j < |received| ensures p.IsPiece(received[j]) || p.IsForeign(received[j]) {
      assert received[j] == all[j];
      if |q.commands| <= j < |q.commands| + |cs| {
        assert all[j] == cs[j - |q.commands|];
      } else {
        assert all[j] in q.commands || all[j] in accepted;
      }
    }
    forall k: nat | k < |p.chunks| ensures p.Piece(k) in received || p.Piece(k) in waiting {
      assert all[|q.commands| + k] == cs[k];
      assert p.Piece(k) in received + waiting;
    }
  }

  /** The sender of a fragmented payload and the way to its receiver: `events` is whatever happened to the queue so far,
      and `arrivals` is what came in, each datagram any number of times or never, in any order. */
  ghost predicate UnderWay(
    libs: Libraries, config: Config, cap: nat, q: Queue, style: Style, data: bytes, events: seq<QueueEvent>,
    i: ValidInbox, arrivals: seq<Arrival>)
  {
    var start := WithPayload(config, cap, q, style, data);
    && q.Valid() && IsFragmented(config, cap, style, data)
    && SenderWorks(libs, config, start, events) && q.AcceptsAll(style.Commands(config, cap, data))
    && NoneUnder(style.number, q.commands) && NoneEnqueued(style.number, events) && style.number !in i.fragments
    && FromSender(
         libs, config, SendingOf(config, cap, style, data), SentOver(libs, config, start, events), arrivals)
  }

  lemma ArrivalsAreUndisturbed(
    libs: Libraries, config: Config, cap: nat, q: Queue, style: Style, data: bytes, events: seq<QueueEvent>,
    i: ValidInbox, arrivals: seq<Arrival>)
    requires UnderWay(libs, config, cap, q, style, data, events, i, arrivals)
    ensures
      var p := SendingOf(config, cap, style, data);
      var start := WithPayload(config, cap, q, style, data);
      var read := ReadAll(libs, config, SentOver(libs, config, start, events));
      && p.Valid() && p.Undisturbed(CommandsOf(AllSteps(libs, config, arrivals))) && read.Ok?
      && forall k: nat :: k < |p.chunks| ==>
           p.Piece(k) in read.value || p.Piece(k) in QueueAfter(libs, config, start, events).commands
  {
    var start := WithPayload(config, cap, q, style, data);
    var sent := SentOver(libs, config, start, events);
    SentOrWaiting(libs, config, cap, q, style, data, events);
    AcceptedAreForeign(libs, config, start, events, style.number);
    ReadIsUndisturbed(config, cap, q, style, data, AcceptedOver(libs, config, start, events),
                      ReadAll(libs, config, sent).value, QueueAfter(libs, config, start, events).commands);
    NetworkIsUndisturbed(libs, config, SendingOf(config, cap, style, data), sent, arrivals);
  }

  /** At any moment in the life of the sender's queue, over a network that loses, duplicates and reorders: a fragment
      has delivered the payload, whole and for the first time, if and only if each fragment was in some datagram
      that arrived. As long as one is missing no fragment does anything. */
  lemma PayloadArrivesIff(
    libs: Libraries, config: Config, cap: nat, q: Queue, style: Style, data: bytes, events: seq<QueueEvent>,
    i: ValidInbox, arrivals: seq<Arrival>)
    requires UnderWay(libs, config, cap, q, style, data, events, i, arrivals)
    ensures
      var p := SendingOf(config, cap, style, data);
      var steps := AllSteps(libs, config, arrivals);
      && p.Valid()
      && ((exists j :: DeliversAt(p, data, i, steps, j)) <==> AllCarried(libs, config, p, arrivals))
      && (SilentBefore(p, i, steps, |steps|) <==> !AllCarried(libs, config, p, arrivals))
  {
    var p := SendingOf(config, cap, style, data);
    var steps := AllSteps(libs, config, arrivals);
    CommandsArePieces(config, cap, style, data);
    ArrivalsAreUndisturbed(libs, config, cap, q, style, data, events, i, arrivals);
    AllInIffCarried(libs, config, p, arrivals);
    if p.AllIn(Arrived(p, steps)) {
      var j := CompleteRunDelivers(p, i, steps);
      assert DeliversAt(p, data, i, steps, j);
    } else {
      assert steps[..|steps|] == steps;
      SilentUntilComplete(p, i, steps, |steps|);
    }
  }

  /** In particular once all fragments have left the queue and every datagram has arrived; and unless a packet is
      rejected, what the commands do one after another is what the peer does. */
  lemma PayloadArrives(
    libs: Libraries, config: Config, cap: nat, q: Queue, style: Style, data: bytes, events: seq<QueueEvent>,
    i: ValidInbox, arrivals: seq<Arrival>) returns (j: nat)
    requires UnderWay(libs, config, cap, q, style, data, events, i, arrivals)
    requires !(i.state == Connecting && MeetsForeign(i, AllSteps(libs, config, arrivals)))
    requires
      var start := WithPayload(config, cap, q, style, data);
      && NoneUnder(style.number, QueueAfter(libs, config, start, events).commands)
      && EachArrived(SentOver(libs, config, start, events), arrivals)
    ensures
      var p := SendingOf(config, cap, style, data);
      var steps := AllSteps(libs, config, arrivals);
      p.Valid() && DeliversAt(p, data, i, steps, j) && Receive(libs, config, i, arrivals) == RunOf(i, steps)
  {
    var p := SendingOf(config, cap, style, data);
    var steps := AllSteps(libs, config, arrivals);
    var start := WithPayload(config, cap, q, style, data);
    PayloadArrivesIff(libs, config, cap, q, style, data, events, i, arrivals);
    ArrivalsAreUndisturbed(libs, config, cap, q, style, data, events, i, arrivals);
    forall k: nat | k < |p.chunks| ensures IsCarried(libs, config, p.Piece(k), arrivals) {
      ReadIsCarried(libs, config, SentOver(libs, config, start, events), arrivals, p.Piece(k));
    }
    j :| DeliversAt(p, data, i, steps, j);
    ReceiveIsRun(libs, config, i, arrivals);
  }

  /** The command comes in at some step and delivers `data`. */
  ghost predicate DeliversWhole(style: Style, data: bytes, i: ValidInbox, steps: seq<Step>) {
    exists j :: 0 <= j < |steps| && steps[j].command == WholeCommand(style, data)
      && Delivers(style, data, After(i, steps[..j]), steps[j])
  }

  /** A payload that fits one command is delivered if and only if some datagram with that command arrived; until one is
      sent the command waits in the queue. */
  lemma ShortPayloadArrivesIff(
    libs: Libraries, config: Config, cap: nat, q: Queue, style: Style, data: bytes, events: seq<QueueEvent>,
    i: ValidInbox, arrivals: seq<Arrival>)
    requires q.Valid() && SenderWorks(libs, config, WithPayload(config, cap, q, style, data), events)
    requires IsShort(config, cap, style, data) && q.AcceptsAll(style.Commands(config, cap, data))
    ensures
      var c := WholeCommand(style, data);
      var start := WithPayload(config, cap, q, style, data);
      && (DeliversWhole(style, data, i, AllSteps(libs, config, arrivals)) <==> IsCarried(libs, config, c, arrivals))
      && (c in QueueAfter(libs, config, start, events).commands
          || exists a {:trigger Contents(libs, config, a)} ::
               a in SentOver(libs, config, start, events) && c in Contents(libs, config, a))
  {
    var c := WholeCommand(style, data);
    var start := WithPayload(config, cap, q, style, data);
    var sent, waiting := SentOver(libs, config, start, events), QueueAfter(libs, config, start, events).commands;
    var all := q.commands + [c] + AcceptedOver(libs, config, start, events);
    CommandIsWhole(config, cap, style, data);
    SentOrWaiting(libs, config, cap, q, style, data, events);
    assert all[|q.commands|] == c && c in ReadAll(libs, config, sent).value + waiting;
    InSomeDatagram(libs, config, sent, c);
    WholeIsDeliveredIff(libs, config, i, arrivals, style, data);
  }

  lemma WholeIsDeliveredIff(
    libs: Libraries, config: Config, i: ValidInbox, arrivals: seq<Arrival>, style: Style, data: bytes)
    ensures
      DeliversWhole(style, data, i, AllSteps(libs, config, arrivals)) <==>
        IsCarried(libs, config, WholeCommand(style, data), arrivals)
  {
    var c := WholeCommand(style, data);
    var steps := AllSteps(libs, config, arrivals);
    InSomeArrival(libs, config, arrivals, c);
    if c in CommandsOf(steps) {
      var j :| 0 <= j < |CommandsOf(steps)| && CommandsOf(steps)[j] == c;
      assert steps[j].command == c;
      WholeDelivers(After(i, steps[..j]), steps[j], style, data);
    } else {
      forall j | 0 <= j < |steps| ensures steps[j].command != c {
        assert CommandsOf(steps)[j] == steps[j].command;
      }
    }
  }

  lemma WholeDelivers(i: ValidInbox, step: Step, style: Style, data: bytes)
    requires step.command == WholeCommand(style, data)
    ensures Delivers(style, data, i, step)
  {
  }
}

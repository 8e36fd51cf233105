/** What a peer tells its user over runs of calls. */
module PeerReceiving {
  import opened Numbers
  import opened Clock
  import opened Command
  import opened Framing
  import opened Config
  import opened Bandwidth
  import opened Packer
  import opened Flush
  import opened Runs
  import opened Processor
  import opened Deliveries
  import opened PeerSessions
  import opened PeerBandwidth

  /** The packets that are emitted, in order. */
  function Emitted(actions: seq<Action>): seq<Packet> {
    if actions == [] then []
    else (if actions[0].EmitPacket? then [actions[0].packet] else []) + Emitted(actions[1..])
  }

  lemma {:induction false} EmittedInParts(a: seq<Action>, b: seq<Action>)
    ensures Emitted(a + b) == Emitted(a) + Emitted(b)
  {
    if a == [] {
      assert a + b == b;
    } else {
      assert (a + b)[1..] == a[1..] + b;
      EmittedInParts(a[1..], b);
    }
  }

  lemma {:induction false} EmittedOfEmits(packets: seq<Packet>)
    ensures Emitted(Emits(packets)) == packets
  {
    if packets != [] {
      assert Emits(packets)[1..] == Emits(packets[1..]);
      EmittedOfEmits(packets[1..]);
    }
  }

  lemma {:induction false} NoneEmitted(actions: seq<Action>)
    requires forall i :: 0 <= i < |actions| ==> !actions[i].EmitPacket?
    ensures Emitted(actions) == []
  {
    if actions != [] {
      NoneEmitted(actions[1..]);
    }
  }

  // ----- what of an inbox decides on what is handed up -----

  /** Two inboxes alike in what decides on the packets handed up. */
  predicate HandsUpLike(i: Inbox, j: Inbox) {
    && i.fragments == j.fragments && i.channels == j.channels
    && i.window.base == j.window.base && i.window.words == j.window.words
  }

  lemma SameOut(i: ValidInbox, j: ValidInbox, step: Step)
    requires HandsUpLike(i, j)
    ensures Out(i, step) == Out(j, step)
  {
  }

  lemma SameWindow(i: ValidInbox, j: ValidInbox, step: Step)
    requires HandsUpLike(i, j)
    ensures Next(i, step).window.base == Next(j, step).window.base
    ensures Next(i, step).window.words == Next(j, step).window.words
  {
    if step.command.SendUnsequenced? {
      MarksAlike(i, j, step);
    } else {
      OnlyUnsequencedTouchesWindow(i, step);
      OnlyUnsequencedTouchesWindow(j, step);
    }
  }

  lemma MarksAlike(i: ValidInbox, j: ValidInbox, step: Step)
    requires HandsUpLike(i, j) && step.command.SendUnsequenced?
    ensures Next(i, step).window.base == Next(j, step).window.base
    ensures Next(i, step).window.words == Next(j, step).window.words
  {
  }

  lemma SameFragments(i: ValidInbox, j: ValidInbox, step: Step)
    requires HandsUpLike(i, j)
    ensures Next(i, step).fragments == Next(j, step).fragments
  {
    if step.command.SendFragment? {
      ReliableFragmentSettles(i, step.command, step.around);
      ReliableFragmentSettles(j, step.command, step.around);
    } else if step.command.SendUnreliableFragment? {
      SettlesAlike(i, j, step);
    } else {
      OnlyFragmentsTouchGroups(i, step);
      OnlyFragmentsTouchGroups(j, step);
    }
  }

  lemma SettlesAlike(i: ValidInbox, j: ValidInbox, step: Step)
    requires HandsUpLike(i, j) && step.command.SendUnreliableFragment?
    ensures Next(i, step).fragments == Next(j, step).fragments
  {
  }

  lemma SameChannels(i: ValidInbox, j: ValidInbox, step: Step)
    requires HandsUpLike(i, j)
    ensures Next(i, step).channels == Next(j, step).channels
  {
    assert PlacedBy(i, step) == PlacedBy(j, step);
    if step.command.SendReliable? {
      ReliableStep(i, step);
      ReliableStep(j, step);
    } else if step.command.SendFragment? {
      FragmentStep(i, step);
      FragmentStep(j, step);
    } else if step.command.SendUnreliableSequenced? {
      SequencedStep(i, step);
      SequencedStep(j, step);
    } else {
      PlainStep(i, step);
      PlainStep(j, step);
    }
  }

  lemma StepKeepsAlike(i: ValidInbox, j: ValidInbox, step: Step)
    requires HandsUpLike(i, j)
    ensures HandsUpLike(Next(i, step), Next(j, step))
  {
    SameWindow(i, j, step);
    SameFragments(i, j, step);
    SameChannels(i, j, step);
  }

  lemma {:induction false} RunsAlike(i: ValidInbox, j: ValidInbox, steps: seq<Step>)
    requires HandsUpLike(i, j)
    ensures HandedUp(i, steps) == HandedUp(j, steps) && HandsUpLike(After(i, steps), After(j, steps))
    decreases |steps|
  {
    if steps != [] {
      SameOut(i, j, steps[0]);
      StepKeepsAlike(i, j, steps[0]);
      RunsAlike(Next(i, steps[0]), Next(j, steps[0]), steps[1..]);
      FirstOfRun(i, steps);
      FirstOfRun(j, steps);
    } else {
      assert After(i, []) == i && After(j, []) == j && HandedUp(i, []) == [] && HandedUp(j, []) == [];
    }
  }

  // ----- runs of calls -----

  /** What the datagrams that a run lets in bring, command by command. */
  function StepsLetIn(libs: Libraries, r: Remote, calls: seq<Call>): seq<Step>
    decreases |calls|
  {
    if calls == [] then []
    else StepsOfCall(libs, r, calls[0]) + StepsLetIn(libs, React(libs, r, calls[0]).0, calls[1..])
  }

  function StepsOfCall(libs: Libraries, r: Remote, c: Call): seq<Step> {
    if c.Receives? && LetsIn(r, c.payload, c.around.time)
    then StepsIn(libs, r.inbox.config, Arrival(c.payload, c.around)) else []
  }

  /** No packet of the run meets a peer that waits for a VerifyConnect with a foreign one. */
  ghost predicate NoneLost(libs: Libraries, r: Remote, calls: seq<Call>)
    decreases |calls|
  {
    calls == []
    || (!(r.inbox.state == Connecting && MeetsForeign(r.inbox, StepsOfCall(libs, r, calls[0])))
        && NoneLost(libs, React(libs, r, calls[0]).0, calls[1..]))
  }

  /** A call emits what its commands hand up, and leaves what decides on packets as they do. */
  ghost predicate CallEmits(libs: Libraries, r: Remote, c: Call) {
    var (after, actions) := React(libs, r, c);
    var steps := StepsOfCall(libs, r, c);
    Emitted(actions) == HandedUp(r.inbox, steps) && HandsUpLike(after.inbox, After(r.inbox, steps))
  }

  lemma NothingHandedUp(i: ValidInbox)
    ensures HandedUp(i, []) == [] && After(i, []) == i
  {
  }

  lemma TakesEmits(libs: Libraries, r: Remote, payload: bytes, s: Surroundings)
    requires
      !(r.inbox.state == Connecting && MeetsForeign(r.inbox, StepsIn(libs, r.inbox.config, Arrival(payload, s))))
    ensures
      var steps := StepsIn(libs, r.inbox.config, Arrival(payload, s));
      var (after, actions) := r.Takes(libs, payload, s);
      Emitted(actions) == HandedUp(r.inbox, steps) && HandsUpLike(after.inbox, After(r.inbox, steps))
  {
    var a := Arrival(payload, s);
    var steps := StepsIn(libs, r.inbox.config, a);
    RejectedIff(r.inbox, steps);
    PacketIsRun(libs, r.inbox.config, r.inbox, a);
    var (after, result) := ProcessPacket(libs, r.inbox.config, r.inbox, a);
    if result.Ok? {
      AnnouncedFirst([EmitConnect], result.value);
      AnnouncedFirst([], result.value);
      ReceiptKeepsAlike(after);
    }
  }

  lemma AnnouncedFirst(announced: seq<Action>, packets: seq<Packet>)
    requires forall i :: 0 <= i < |announced| ==> !announced[i].EmitPacket?
    ensures Emitted(announced + Emits(packets)) == packets
  {
    NoneEmitted(announced);
    EmittedOfEmits(packets);
    EmittedInParts(announced, Emits(packets));
    assert [] + packets == packets;
  }

  lemma ReceiptKeepsAlike(i: ValidInbox)
    ensures i.RecordRecv().Valid() && HandsUpLike(i.RecordRecv(), i)
  {
  }

  lemma ReceiveEmits(libs: Libraries, r: Remote, payload: bytes, s: Surroundings)
    requires !(r.inbox.state == Connecting && MeetsForeign(r.inbox, StepsOfCall(libs, r, Receives(payload, s))))
    ensures CallEmits(libs, r, Receives(payload, s))
  {
    NothingHandedUp(r.inbox);
    if LetsIn(r, payload, s.time) {
      var t := r.outbox.throttle.UpdateWindow(s.time).RecordReceived(Low32(|payload|));
      TakesEmits(libs, r.(outbox := r.outbox.(throttle := t)), payload, s);
    }
  }

  lemma PreparedKeepsAlike(r: Remote, p: Packet)
    ensures HandsUpLike(r.Prepared(p).inbox, r.inbox)
  {
  }

  lemma SendKeepsAlike(libs: Libraries, r: Remote, p: Packet, at: Instant)
    ensures HandsUpLike(React(libs, r, Sends(p, at)).0.inbox, r.inbox)
  {
    PreparedKeepsAlike(r, p);
    assert React(libs, r, Sends(p, at)).0.inbox == r.Prepared(p).inbox;
  }

  lemma SendEmitsNothing(libs: Libraries, r: Remote, p: Packet, at: Instant)
    ensures CallEmits(libs, r, Sends(p, at))
  {
    NothingHandedUp(r.inbox);
    SendKeepsAlike(libs, r, p, at);
    SendTransmits(libs, r, p);
    NoneEmitted(Transmits(r.Prepared(p).Flushes(libs).1));
  }

  lemma UpdateEmitsNothing(libs: Libraries, r: Remote, time: Instant, o: Outside)
    ensures CallEmits(libs, r, Updates(time, o))
  {
    NothingHandedUp(r.inbox);
    UpdateGoesForward(libs, r, time, o);
    NoneEmitted(Transmits(r.Checked(time, o).Flushes(libs).1));
  }

  lemma DisconnectEmitsNothing(libs: Libraries, r: Remote)
    ensures CallEmits(libs, r, Disconnects)
  {
    NothingHandedUp(r.inbox);
  }

  lemma CallEmitsWhatIsHandedUp(libs: Libraries, r: Remote, c: Call)
    requires !(r.inbox.state == Connecting && MeetsForeign(r.inbox, StepsOfCall(libs, r, c)))
    ensures CallEmits(libs, r, c)
  {
    match c {
      case Receives(payload, s) => ReceiveEmits(libs, r, payload, s);
      case Sends(p, at) => SendEmitsNothing(libs, r, p, at);
      case Updates(time, o) => UpdateEmitsNothing(libs, r, time, o);
      case Disconnects => DisconnectEmitsNothing(libs, r);
    }
  }

  /** Over every run of calls that loses no packet to a rejection: what the peer tells its user is exactly what the
      commands of the datagrams that it let in hand up, in order, whatever it sends and updates in between. */
  lemma {:induction false} EmittedIsHandedUp(libs: Libraries, r: Remote, calls: seq<Call>)
    requires NoneLost(libs, r, calls)
    ensures Emitted(ActionsOf(libs, r, calls)) == HandedUp(r.inbox, StepsLetIn(libs, r, calls))
    decreases |calls|
  {
    if calls == [] {
      NothingHandedUp(r.inbox);
    } else {
      var c, next := calls[0], React(libs, r, calls[0]).0;
      CallEmitsWhatIsHandedUp(libs, r, c);
      EmittedIsHandedUp(libs, next, calls[1..]);
      EmittedInParts(React(libs, r, c).1, ActionsOf(libs, next, calls[1..]));
      var steps, more := StepsOfCall(libs, r, c), StepsLetIn(libs, next, calls[1..]);
      RunsAlike(next.inbox, After(r.inbox, steps), more);
      RunInParts<ValidInbox, Step, Packet>(Next, Out, r.inbox, steps, more);
    }
  }

  // ----- what a peer notes -----

  /** When the last command came in, over a run of calls. */
  function LastCommand(libs: Libraries, r: Remote, calls: seq<Call>, last: Instant): Instant
    decreases |calls|
  {
    if calls == [] then last
    else
      LastCommand(libs, React(libs, r, calls[0]).0, calls[1..],
                  if StepsOfCall(libs, r, calls[0]) != [] then calls[0].around.time else last)
  }

  lemma StepNotes(i: ValidInbox, step: Step)
    ensures Next(i, step).lastHeard == step.around.time
  {
  }

  lemma {:induction false} PacketNotes(i: ValidInbox, steps: seq<Step>, time: Instant)
    requires forall k :: 0 <= k < |steps| ==> steps[k].around.time == time
    ensures ProcessAll(i, steps).0.lastHeard == if steps == [] then i.lastHeard else time
    decreases |steps|
  {
    if steps != [] {
      StepNotes(i, steps[0]);
      if !i.Rejects(steps[0].command) {
        PacketNotes(Next(i, steps[0]), steps[1..], time);
      }
    }
  }

  lemma ReceiveNotes(libs: Libraries, r: Remote, payload: bytes, s: Surroundings)
    ensures r.Receive(libs, payload, s).0.inbox.lastHeard
      == if StepsOfCall(libs, r, Receives(payload, s)) != [] then s.time else r.inbox.lastHeard
  {
    PacketNotes(r.inbox, StepsIn(libs, r.inbox.config, Arrival(payload, s)), s.time);
  }

  lemma CallNotes(libs: Libraries, r: Remote, c: Call)
    ensures React(libs, r, c).0.inbox.lastHeard
      == if StepsOfCall(libs, r, c) != [] then c.around.time else r.inbox.lastHeard
  {
    match c {
      case Receives(payload, s) => ReceiveNotes(libs, r, payload, s);
      case Sends(p, at) => SendIsQuiet(libs, r, p, at);
      case Updates(time, o) => UpdateGoesForward(libs, r, time, o);
      case Disconnects =>
    }
  }

  lemma SendIsQuiet(libs: Libraries, r: Remote, p: Packet, at: Instant)
    ensures React(libs, r, Sends(p, at)).0.inbox.lastHeard == r.inbox.lastHeard
  {
    assert React(libs, r, Sends(p, at)).0.inbox == r.Prepared(p).inbox;
  }

  /** Over every run of calls a peer last heard when the last command came in that it let in; on that idling depends. */
  lemma {:induction false} LastHeardIsLastCommand(libs: Libraries, r: Remote, calls: seq<Call>)
    ensures AfterCalls(libs, r, calls).inbox.lastHeard == LastCommand(libs, r, calls, r.inbox.lastHeard)
    decreases |calls|
  {
    if calls != [] {
      CallNotes(libs, r, calls[0]);
      LastHeardIsLastCommand(libs, React(libs, r, calls[0]).0, calls[1..]);
    }
  }

  /** A command that has nothing to do with the connection. */
  predicate IsPlain(c: Command) { !c.Connect? && !c.VerifyConnect? && !c.Disconnect? }

  lemma {:induction false} PlainKeepState(i: ValidInbox, steps: seq<Step>)
    requires forall k :: 0 <= k < |steps| ==> IsPlain(steps[k].command)
    ensures ProcessAll(i, steps).0.state == i.state && ProcessAll(i, steps).0.config == i.config
    ensures ProcessAll(i, steps).1.Ok?
    decreases |steps|
  {
    if steps != [] {
      StepMovesState(i, steps[0]);
      StepKeepsConfig(i, steps[0]);
      PlainKeepState(Next(i, steps[0]), steps[1..]);
    }
  }

  /** A peer that answered a Connect, or a new one without the formal handshake. */
  predicate MayConnect(i: Inbox) {
    || i.state == AcknowledgingConnect
    || (!i.config.useConnectionHandshake && (i.state == Idle || i.state == Connecting))
  }

  lemma TakesConnects(libs: Libraries, r: Remote, payload: bytes, s: Surroundings)
    requires ReadBack(libs, r.inbox.config, payload).Ok?
    requires
      forall k :: 0 <= k < |StepsIn(libs, r.inbox.config, Arrival(payload, s))| ==>
        IsPlain(StepsIn(libs, r.inbox.config, Arrival(payload, s))[k].command)
    ensures
      var (after, actions) := r.Takes(libs, payload, s);
      && after.inbox.state == (if MayConnect(r.inbox) then Connected else r.inbox.state)
      && (EmitConnect in actions <==> MayConnect(r.inbox))
  {
    PlainKeepState(r.inbox, StepsIn(libs, r.inbox.config, Arrival(payload, s)));
  }

  /** A plain packet that can be read and is let in connects exactly a peer that answered a Connect, or any new one
      without the formal handshake, and announces it; of all others it leaves the state alone and announces nothing. */
  lemma PlainPacketConnectsIff(libs: Libraries, r: Remote, payload: bytes, s: Surroundings)
    requires LetsIn(r, payload, s.time) && ReadBack(libs, r.inbox.config, payload).Ok?
    requires
      forall k :: 0 <= k < |StepsIn(libs, r.inbox.config, Arrival(payload, s))| ==>
        IsPlain(StepsIn(libs, r.inbox.config, Arrival(payload, s))[k].command)
    ensures
      var (after, actions) := r.Receive(libs, payload, s);
      && after.inbox.state == (if MayConnect(r.inbox) then Connected else r.inbox.state)
      && (EmitConnect in actions <==> MayConnect(r.inbox))
  {
    var t := r.outbox.throttle.UpdateWindow(s.time).RecordReceived(Low32(|payload|));
    TakesConnects(libs, r.(outbox := r.outbox.(throttle := t)), payload, s);
  }
}

/** What each session of a table goes through in a poll. */
module SessionLives {
  import opened Numbers
  import opened Clock
  import opened Sessions

  /** The payloads that come from `a`, in order. */
  function From(ps: seq<Inbound>, a: Address): seq<bytes> {
    if ps == [] then []
    else From(ps[..|ps| - 1], a) + if ps[|ps| - 1].from == a then [ps[|ps| - 1].payload] else []
  }

  /** The user's events for `a`, in order. */
  function For<E>(es: seq<UserEvent<E>>, a: Address): seq<E> {
    if es == [] then []
    else For(es[..|es| - 1], a) + if es[|es| - 1].target == a then [es[|es| - 1].event] else []
  }

  /** A session after some packets. */
  function Heard<S, E>(engine: Engine<S, E>, s: S, payloads: seq<bytes>, time: Instant): S {
    if payloads == [] then s
    else engine.processPacket(Heard(engine, s, payloads[..|payloads| - 1], time), payloads[|payloads| - 1], time)
  }

  /** A session after some events. */
  function Told<S, E>(engine: Engine<S, E>, s: S, events: seq<E>, time: Instant): S {
    if events == [] then s
    else engine.processEvent(Told(engine, s, events[..|events| - 1], time), events[|events| - 1], time)
  }

  lemma OneMoreHeard<S, E>(engine: Engine<S, E>, s: S, payloads: seq<bytes>, p: bytes, time: Instant)
    ensures Heard(engine, s, payloads + [p], time)
      == engine.processPacket(Heard(engine, s, payloads, time), p, time)
    ensures Heard(engine, s, payloads + [], time) == Heard(engine, s, payloads, time)
  {
    assert (payloads + [p])[..|payloads|] == payloads && payloads + [] == payloads;
  }

  lemma OneMoreTold<S, E>(engine: Engine<S, E>, s: S, events: seq<E>, e: E, time: Instant)
    ensures Told(engine, s, events + [e], time) == engine.processEvent(Told(engine, s, events, time), e, time)
    ensures Told(engine, s, events + [], time) == Told(engine, s, events, time)
  {
    assert (events + [e])[..|events|] == events && events + [] == events;
  }

  lemma OnlyOneHeard<S, E>(engine: Engine<S, E>, s: S, p: bytes, time: Instant)
    ensures Heard(engine, s, [p], time) == engine.processPacket(s, p, time)
  {
    OneMoreHeard(engine, s, [], p, time);
    assert [] + [p] == [p];
  }

  lemma OnlyOneTold<S, E>(engine: Engine<S, E>, s: S, e: E, time: Instant)
    ensures Told(engine, s, [e], time) == engine.processEvent(s, e, time)
  {
    OneMoreTold(engine, s, [], e, time);
    assert [] + [e] == [e];
  }

  // ----- packets -----

  lemma {:induction false} HearingTells<S, E>(
    engine: Engine<S, E>, limits: Limits, t: Table<S>, ps: seq<Inbound>, time: Instant, a: Address)
    requires a in t.sessions
    ensures a in HearAll(engine, limits, t, ps, time).sessions
    ensures HearAll(engine, limits, t, ps, time).sessions[a] == Heard(engine, t.sessions[a], From(ps, a), time)
    decreases |ps|
  {
    if ps != [] {
      var before, last := ps[..|ps| - 1], ps[|ps| - 1];
      HearingTells(engine, limits, t, before, time, a);
      OneMoreHeard(engine, t.sessions[a], From(before, a), last.payload, time);
    }
  }

  lemma FromSuffix(ps: seq<Inbound>, k: nat, a: Address)
    requires k < |ps|
    ensures From(ps[k..], a) == From(ps[..|ps| - 1][k..], a)
      + if ps[|ps| - 1].from == a then [ps[|ps| - 1].payload] else []
  {
    assert ps[k..][..|ps[k..]| - 1] == ps[..|ps| - 1][k..];
  }

  lemma LastFrom(last: Inbound)
    ensures From([last], last.from) == [last.payload]
  {
    assert [last][..0] == [] && From([], last.from) == [];
  }

  /** A session that was not there: the packet that brings it in. */
  lemma {:induction false} HearingAdmits<S, E>(
    engine: Engine<S, E>, limits: Limits, t: Table<S>, ps: seq<Inbound>, time: Instant, a: Address) returns (k: nat)
    requires a !in t.sessions && a in HearAll(engine, limits, t, ps, time).sessions
    ensures k < |ps| && ps[k].from == a && a !in HearAll(engine, limits, t, ps[..k], time).sessions
    ensures HearAll(engine, limits, t, ps, time).sessions[a]
      == Heard(engine, engine.create(a, time), From(ps[k..], a), time)
    decreases |ps|
  {
    var before, last := ps[..|ps| - 1], ps[|ps| - 1];
    if a in HearAll(engine, limits, t, before, time).sessions {
      k := HearingAdmits(engine, limits, t, before, time, a);
      assert before[..k] == ps[..k];
      FromSuffix(ps, k, a);
      OneMoreHeard(engine, engine.create(a, time), From(before[k..], a), last.payload, time);
    } else {
      k := |ps| - 1;
      assert ps[k..] == [last] && last.from == a;
      LastFrom(last);
      OnlyOneHeard(engine, engine.create(a, time), last.payload, time);
    }
  }

  // ----- events -----

  lemma {:induction false} SendingTells<S, E>(
    engine: Engine<S, E>, limits: Limits, t: Table<S>, es: seq<UserEvent<E>>, time: Instant, a: Address)
    requires a in t.sessions
    ensures a in SendAll(engine, limits, t, es, time).sessions
    ensures SendAll(engine, limits, t, es, time).sessions[a] == Told(engine, t.sessions[a], For(es, a), time)
    decreases |es|
  {
    if es != [] {
      var before, last := es[..|es| - 1], es[|es| - 1];
      SendingTells(engine, limits, t, before, time, a);
      OneMoreTold(engine, t.sessions[a], For(before, a), last.event, time);
    }
  }

  lemma ForSuffix<E>(es: seq<UserEvent<E>>, k: nat, a: Address)
    requires k < |es|
    ensures For(es[k..], a) == For(es[..|es| - 1][k..], a)
      + if es[|es| - 1].target == a then [es[|es| - 1].event] else []
  {
    assert es[k..][..|es[k..]| - 1] == es[..|es| - 1][k..];
  }

  lemma LastFor<E>(last: UserEvent<E>)
    ensures For([last], last.target) == [last.event]
  {
    assert [last][..0] == [] && For<E>([], last.target) == [];
  }

  /** The event that brings a session in. */
  lemma {:induction false} SendingAdmits<S, E>(
    engine: Engine<S, E>, limits: Limits, t: Table<S>, es: seq<UserEvent<E>>, time: Instant, a: Address)
    returns (k: nat)
    requires a !in t.sessions && a in SendAll(engine, limits, t, es, time).sessions
    ensures k < |es| && es[k].target == a && a !in SendAll(engine, limits, t, es[..k], time).sessions
    ensures SendAll(engine, limits, t, es, time).sessions[a]
      == Told(engine, engine.create(a, time), For(es[k..], a), time)
    decreases |es|
  {
    var before, last := es[..|es| - 1], es[|es| - 1];
    if a in SendAll(engine, limits, t, before, time).sessions {
      k := SendingAdmits(engine, limits, t, before, time, a);
      assert before[..k] == es[..k];
      ForSuffix(es, k, a);
      OneMoreTold(engine, engine.create(a, time), For(before[k..], a), last.event, time);
    } else {
      k := |es| - 1;
      assert es[k..] == [last] && last.target == a;
      LastFor(last);
      OnlyOneTold(engine, engine.create(a, time), last.event, time);
    }
  }

  // ----- a poll -----

  /** What becomes of a session at the end of a poll: it is updated, then asked, and stays unless it wants to go. */
  ghost predicate Ends<S, E>(engine: Engine<S, E>, s: S, time: Instant, after: map<Address, S>, a: Address) {
    var (asked, drop) := engine.shouldDrop(engine.update(s, time), time);
    (a in after <==> !drop) && (a in after ==> after[a] == asked)
  }

  lemma SweepEnds<S, E>(engine: Engine<S, E>, sessions: map<Address, S>, time: Instant, a: Address)
    ensures if a in sessions then Ends(engine, sessions[a], time, Sweep(engine, sessions, time), a)
            else a !in Sweep(engine, sessions, time)
  {
  }

  /** A session in the table goes through exactly the packets from its address, then the events for it, in order, and is
      then updated and asked, whatever else is in the poll. */
  lemma SessionGoesThroughItsOwn<S, E>(
    engine: Engine<S, E>, limits: Limits, sessions: map<Address, S>, ps: seq<Inbound>, es: seq<UserEvent<E>>,
    time: Instant, a: Address)
    requires a in sessions
    ensures Ends(engine, Told(engine, Heard(engine, sessions[a], From(ps, a), time), For(es, a), time), time,
                 Poll(engine, limits, sessions, ps, es, time), a)
  {
    var heard := HearAll(engine, limits, Counted(engine, sessions), ps, time);
    HearingTells(engine, limits, Counted(engine, sessions), ps, time, a);
    SendingTells(engine, limits, heard, es, time, a);
    SweepEnds(engine, SendAll(engine, limits, heard, es, time).sessions, time, a);
  }

  /** A session that was not in the table came with a packet or an event: it is a new one that goes through exactly the
      packets from its address from that one on, then the events for it, or through the events from that one on. */
  lemma NewcomerGoesThroughItsOwn<S, E>(
    engine: Engine<S, E>, limits: Limits, sessions: map<Address, S>, ps: seq<Inbound>, es: seq<UserEvent<E>>,
    time: Instant, a: Address) returns (byPacket: bool, k: nat)
    requires a !in sessions && a in Poll(engine, limits, sessions, ps, es, time)
    ensures if byPacket then k < |ps| && ps[k].from == a else k < |es| && es[k].target == a
    ensures
      var s := engine.create(a, time);
      Ends(engine, if byPacket then Told(engine, Heard(engine, s, From(ps[k..], a), time), For(es, a), time)
                   else Told(engine, s, For(es[k..], a), time),
           time, Poll(engine, limits, sessions, ps, es, time), a)
  {
    var t := Counted(engine, sessions);
    var heard := HearAll(engine, limits, t, ps, time);
    SweepEnds(engine, SendAll(engine, limits, heard, es, time).sessions, time, a);
    byPacket := a in heard.sessions;
    if byPacket {
      k := HearingAdmits(engine, limits, t, ps, time, a);
      SendingTells(engine, limits, heard, es, time, a);
    } else {
      k := SendingAdmits(engine, limits, heard, es, time, a);
    }
  }

  /** The limit on unestablished sessions and that on sessions per address are open for a packet from `a`. */
  predicate IsOpen<S>(limits: Limits, t: Table<S>, a: Address) {
    && t.unestablished < limits.maxUnestablished
    && (limits.maxDuplicatePeers == 0 || |Sharing(t.sessions.Keys, a.ip)| < limits.maxDuplicatePeers)
  }

  /** At each packet of a poll a new session is let in exactly when the limits are open then, and no session goes. */
  lemma AdmittedIff<S, E>(
    engine: Engine<S, E>, limits: Limits, t: Table<S>, ps: seq<Inbound>, k: nat, time: Instant)
    requires k < |ps|
    ensures
      var before := HearAll(engine, limits, t, ps[..k], time);
      var after := HearAll(engine, limits, t, ps[..k + 1], time).sessions.Keys;
      after == before.sessions.Keys + if IsOpen(limits, before, ps[k].from) then {ps[k].from} else {}
  {
    assert ps[..k + 1][..k] == ps[..k];
    var before := HearAll(engine, limits, t, ps[..k], time);
    var after := HearAll(engine, limits, t, ps[..k + 1], time);
    if ps[k].from !in before.sessions && IsOpen(limits, before, ps[k].from) {
      assert after.sessions.Keys == before.sessions.Keys + {ps[k].from};
    } else {
      assert after.sessions.Keys == before.sessions.Keys;
    }
  }

  // ----- without limits in the way -----

  /** No limit on sessions per address, and room for one unestablished session per packet. */
  predicate HasRoom<S, E>(engine: Engine<S, E>, limits: Limits, sessions: map<Address, S>, ps: seq<Inbound>) {
    limits.maxDuplicatePeers == 0 && |Unestablished(engine, sessions)| + |ps| <= limits.maxUnestablished
  }

  lemma {:induction false} HearingWithRoom<S, E>(
    engine: Engine<S, E>, limits: Limits, t: Table<S>, ps: seq<Inbound>, time: Instant, a: Address)
    requires a !in t.sessions && limits.maxDuplicatePeers == 0
    requires t.unestablished + |ps| <= limits.maxUnestablished
    ensures
      var after := HearAll(engine, limits, t, ps, time);
      && after.unestablished <= t.unestablished + |ps|
      && (a in after.sessions <==> From(ps, a) != [])
      && (a in after.sessions ==> after.sessions[a] == Heard(engine, engine.create(a, time), From(ps, a), time))
    decreases |ps|
  {
    if ps != [] {
      var before, last := ps[..|ps| - 1], ps[|ps| - 1];
      HearingWithRoom(engine, limits, t, before, time, a);
      OneMoreHeard(engine, engine.create(a, time), From(before, a), last.payload, time);
      OnlyOneHeard(engine, engine.create(a, time), last.payload, time);
      assert [] + [last.payload] == [last.payload];
    }
  }

  lemma {:induction false} SendingWithRoom<S, E>(
    engine: Engine<S, E>, limits: Limits, t: Table<S>, es: seq<UserEvent<E>>, time: Instant, a: Address)
    requires a !in t.sessions && limits.maxDuplicatePeers == 0
    ensures
      var after := SendAll(engine, limits, t, es, time);
      && (a in after.sessions <==> For(es, a) != [])
      && (a in after.sessions ==> after.sessions[a] == Told(engine, engine.create(a, time), For(es, a), time))
    decreases |es|
  {
    if es != [] {
      var before, last := es[..|es| - 1], es[|es| - 1];
      SendingWithRoom(engine, limits, t, before, time, a);
      OneMoreTold(engine, engine.create(a, time), For(before, a), last.event, time);
      OnlyOneTold(engine, engine.create(a, time), last.event, time);
      assert [] + [last.event] == [last.event];
    }
  }

  /** With room every address that anything comes from or goes to has its session, which goes through all of it. */
  lemma EveryoneIsAdmitted<S, E>(
    engine: Engine<S, E>, limits: Limits, sessions: map<Address, S>, ps: seq<Inbound>, es: seq<UserEvent<E>>,
    time: Instant, a: Address)
    requires HasRoom(engine, limits, sessions, ps) && a !in sessions
    ensures
      var after := Poll(engine, limits, sessions, ps, es, time);
      if From(ps, a) == [] && For(es, a) == [] then a !in after
      else
        var s := Heard(engine, engine.create(a, time), From(ps, a), time);
        Ends(engine, Told(engine, s, For(es, a), time), time, after, a)
  {
    var t := Counted(engine, sessions);
    var heard := HearAll(engine, limits, t, ps, time);
    HearingWithRoom(engine, limits, t, ps, time, a);
    if a in heard.sessions {
      SendingTells(engine, limits, heard, es, time, a);
    } else {
      SendingWithRoom(engine, limits, heard, es, time, a);
    }
    SweepEnds(engine, SendAll(engine, limits, heard, es, time).sessions, time, a);
  }
}

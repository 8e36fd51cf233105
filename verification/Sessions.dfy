/** The session table and its index of sessions per IP address. */
module Sessions {
  import opened Numbers
  import opened Clock

  datatype Address = Address(ip: nat, port: u16)

  /** The engine that a session manager drives: how sessions of type `S` react to packets and user events. */
  datatype Engine<!S, !E> = Engine(
    create: (Address, Instant) -> S,
    isEstablished: S -> bool,
    processPacket: (S, bytes, Instant) -> S,
    processEvent: (S, E, Instant) -> S,
    update: (S, Instant) -> S,
    shouldDrop: (S, Instant) -> (S, bool))

  datatype Limits = Limits(maxUnestablished: u16, maxDuplicatePeers: u16)

  datatype Inbound = Inbound(from: Address, payload: bytes)

  datatype UserEvent<E> = UserEvent(target: Address, event: E)

  /** The addresses in `keys` that share the IP address `ip`. */
  function Sharing(keys: set<Address>, ip: nat): set<Address> { set a | a in keys && a.ip == ip }

  /** The index of a session table: per IP address with sessions, their number. */
  function CountsOf(keys: set<Address>): map<nat, nat> {
    map ip | ip in (set a | a in keys :: a.ip) :: |Sharing(keys, ip)|
  }

  function Increment(counts: map<nat, nat>, ip: nat): map<nat, nat> {
    counts[ip := (if ip in counts then counts[ip] else 0) + 1]
  }

  function Decrement(counts: map<nat, nat>, ip: nat): map<nat, nat> {
    if ip !in counts then counts
    else if counts[ip] <= 1 then counts - {ip}
    else counts[ip := counts[ip] - 1]
  }

  lemma SharingOneMore(keys: set<Address>, a: Address, ip: nat)
    requires a !in keys
    ensures Sharing(keys + {a}, ip) == if ip == a.ip then Sharing(keys, ip) + {a} else Sharing(keys, ip)
    ensures |Sharing(keys + {a}, ip)| == |Sharing(keys, ip)| + if ip == a.ip then 1 else 0
  {
    assert Sharing(keys + {a}, ip) == if ip == a.ip then Sharing(keys, ip) + {a} else Sharing(keys, ip);
  }

  lemma InCountsIff(keys: set<Address>, ip: nat)
    ensures ip in CountsOf(keys) <==> Sharing(keys, ip) != {}
    ensures (if ip in CountsOf(keys) then CountsOf(keys)[ip] else 0) == |Sharing(keys, ip)|
  {
    if ip in CountsOf(keys) {
      var a :| a in keys && a.ip == ip;
      assert a in Sharing(keys, ip);
    }
    if Sharing(keys, ip) != {} {
      var a :| a in Sharing(keys, ip);
      assert a.ip in CountsOf(keys);
    }
  }

  /** Counting one more session keeps the index exact. */
  lemma IncrementIsExact(keys: set<Address>, a: Address)
    requires a !in keys
    ensures Increment(CountsOf(keys), a.ip) == CountsOf(keys + {a})
  {
    forall ip: nat
      ensures ip in Increment(CountsOf(keys), a.ip) <==> ip in CountsOf(keys + {a})
      ensures ip in CountsOf(keys + {a}) ==> Increment(CountsOf(keys), a.ip)[ip] == CountsOf(keys + {a})[ip]
    {
      InCountsIff(keys, ip);
      InCountsIff(keys + {a}, ip);
      SharingOneMore(keys, a, ip);
    }
  }

  /** Counting one session less keeps it exact, with no entry left at zero. */
  lemma DecrementIsExact(keys: set<Address>, a: Address)
    requires a in keys
    ensures Decrement(CountsOf(keys), a.ip) == CountsOf(keys - {a})
  {
    assert keys - {a} + {a} == keys;
    forall ip: nat
      ensures ip in Decrement(CountsOf(keys), a.ip) <==> ip in CountsOf(keys - {a})
      ensures ip in CountsOf(keys - {a}) ==> Decrement(CountsOf(keys), a.ip)[ip] == CountsOf(keys - {a})[ip]
    {
      InCountsIff(keys, ip);
      InCountsIff(keys - {a}, ip);
      SharingOneMore(keys - {a}, a, ip);
    }
  }

  // ----- what a poll does to the table -----

  predicate CanAccept(keys: set<Address>, limits: Limits, a: Address) {
    limits.maxDuplicatePeers == 0 || |Sharing(keys, a.ip)| < limits.maxDuplicatePeers
  }

  /** The table and the running count of unestablished sessions, which leaves out those that user events make in
      this poll. */
  datatype Table<!S> = Table(sessions: map<Address, S>, unestablished: int)

  function Settled<S, E>(engine: Engine<S, E>, t: Table<S>, a: Address, s: S): Table<S>
    requires a in t.sessions
  {
    var became := !engine.isEstablished(t.sessions[a]) && engine.isEstablished(s);
    Table(t.sessions[a := s], if became then t.unestablished - 1 else t.unestablished)
  }

  function Hear<S, E>(engine: Engine<S, E>, limits: Limits, t: Table<S>, p: Inbound, time: Instant): Table<S> {
    if p.from in t.sessions then
      Settled(engine, t, p.from, engine.processPacket(t.sessions[p.from], p.payload, time))
    else if t.unestablished < limits.maxUnestablished && CanAccept(t.sessions.Keys, limits, p.from) then
      Table(
        t.sessions[p.from := engine.processPacket(engine.create(p.from, time), p.payload, time)],
        t.unestablished + 1)
    else t
  }

  function Send<S, E>(engine: Engine<S, E>, limits: Limits, t: Table<S>, e: UserEvent<E>, time: Instant): Table<S> {
    if e.target in t.sessions then
      Settled(engine, t, e.target, engine.processEvent(t.sessions[e.target], e.event, time))
    else if CanAccept(t.sessions.Keys, limits, e.target) then
      t.(sessions := t.sessions[e.target := engine.processEvent(engine.create(e.target, time), e.event, time)])
    else t
  }

  function HearAll<S, E>(engine: Engine<S, E>, limits: Limits, t: Table<S>, ps: seq<Inbound>, time: Instant): Table<S> {
    if ps == [] then t
    else Hear(engine, limits, HearAll(engine, limits, t, ps[..|ps| - 1], time), ps[|ps| - 1], time)
  }

  function SendAll<S, E>(engine: Engine<S, E>, limits: Limits, t: Table<S>, es: seq<UserEvent<E>>, time: Instant)
    : Table<S>
  {
    if es == [] then t
    else Send(engine, limits, SendAll(engine, limits, t, es[..|es| - 1], time), es[|es| - 1], time)
  }

  function Unestablished<S, E>(engine: Engine<S, E>, sessions: map<Address, S>): set<Address> {
    set a | a in sessions && !engine.isEstablished(sessions[a])
  }

  function UpdateAll<S, E>(engine: Engine<S, E>, sessions: map<Address, S>, time: Instant): map<Address, S> {
    map a | a in sessions :: engine.update(sessions[a], time)
  }

  function AskAll<S, E>(engine: Engine<S, E>, sessions: map<Address, S>, time: Instant): map<Address, S> {
    map a | a in sessions :: engine.shouldDrop(sessions[a], time).0
  }

  function ToDrop<S, E>(engine: Engine<S, E>, sessions: map<Address, S>, time: Instant): set<Address> {
    set a | a in sessions && engine.shouldDrop(sessions[a], time).1
  }

  /** Every session updated, then asked whether to drop it, and those that say so dropped. */
  function Sweep<S, E>(engine: Engine<S, E>, sessions: map<Address, S>, time: Instant): map<Address, S> {
    var updated := UpdateAll(engine, sessions, time);
    AskAll(engine, updated, time) - ToDrop(engine, updated, time)
  }

  function Poll<S, E>(
    engine: Engine<S, E>, limits: Limits, sessions: map<Address, S>, ps: seq<Inbound>, es: seq<UserEvent<E>>,
    time: Instant)
    : map<Address, S>
  {
    var t := Counted(engine, sessions);
    Sweep(engine, SendAll(engine, limits, HearAll(engine, limits, t, ps, time), es, time).sessions, time)
  }

  // ----- the running count of unestablished sessions -----

  /** What becomes of a session that gets a packet: established or gone it waits no more, and only one that waits
      can become established. */
  predicate Moves<S, E>(engine: Engine<S, E>, gone: S -> bool, before: S, after: S) {
    && (IsWaiting(engine, gone, after) ==> IsWaiting(engine, gone, before))
    && (engine.isEstablished(after) ==> engine.isEstablished(before) || !gone(before))
  }

  predicate IsWaiting<S, E>(engine: Engine<S, E>, gone: S -> bool, s: S) { !engine.isEstablished(s) && !gone(s) }

  /** Packets move sessions only so, and events establish none. */
  ghost predicate Settles<S(!new), E(!new)>(engine: Engine<S, E>, gone: S -> bool) {
    && (forall s: S, p: bytes, time: Instant :: Moves(engine, gone, s, engine.processPacket(s, p, time)))
    && (forall s: S, e: E, time: Instant ::
          engine.isEstablished(engine.processEvent(s, e, time)) ==> engine.isEstablished(s))
  }

  /** The sessions that are neither established nor gone. */
  function Waiting<S, E>(engine: Engine<S, E>, gone: S -> bool, sessions: map<Address, S>): set<Address> {
    set a | a in sessions && IsWaiting(engine, gone, sessions[a])
  }

  /** The count is at least the number of sessions that wait, and at most `bound`. */
  ghost predicate Counts<S, E>(engine: Engine<S, E>, gone: S -> bool, t: Table<S>, bound: nat) {
    |Waiting(engine, gone, t.sessions)| <= t.unestablished <= bound
  }

  lemma HearKeepsCounts<S(!new), E(!new)>(
    engine: Engine<S, E>, limits: Limits, gone: S -> bool, t: Table<S>, bound: nat, p: Inbound, time: Instant)
    requires Settles(engine, gone) && Counts(engine, gone, t, bound) && limits.maxUnestablished <= bound
    ensures Counts(engine, gone, Hear(engine, limits, t, p, time), bound)
  {
    var before, after := Waiting(engine, gone, t.sessions), Hear(engine, limits, t, p, time);
    var now := Waiting(engine, gone, after.sessions);
    if p.from in t.sessions {
      var s, s' := t.sessions[p.from], engine.processPacket(t.sessions[p.from], p.payload, time);
      assert Moves(engine, gone, s, s');
      SubsetSize(now, before);
      if !engine.isEstablished(s) && engine.isEstablished(s') {
        SubsetSize(now, before - {p.from});
      }
    } else {
      SubsetSize(now, before + {p.from});
    }
  }

  lemma {:induction false} HearingKeepsCounts<S(!new), E(!new)>(
    engine: Engine<S, E>, limits: Limits, gone: S -> bool, t: Table<S>, bound: nat, ps: seq<Inbound>, time: Instant)
    requires Settles(engine, gone) && Counts(engine, gone, t, bound) && limits.maxUnestablished <= bound
    ensures Counts(engine, gone, HearAll(engine, limits, t, ps, time), bound)
  {
    if ps != [] {
      HearingKeepsCounts(engine, limits, gone, t, bound, ps[..|ps| - 1], time);
      HearKeepsCounts(
        engine, limits, gone, HearAll(engine, limits, t, ps[..|ps| - 1], time), bound, ps[|ps| - 1], time);
    }
  }

  lemma {:induction false} SendingKeepsCount<S(!new), E(!new)>(
    engine: Engine<S, E>, limits: Limits, gone: S -> bool, t: Table<S>, es: seq<UserEvent<E>>, time: Instant)
    requires Settles(engine, gone)
    ensures SendAll(engine, limits, t, es, time).unestablished == t.unestablished
  {
    if es != [] {
      SendingKeepsCount(engine, limits, gone, t, es[..|es| - 1], time);
    }
  }

  /** What a poll counts from. */
  function Counted<S, E>(engine: Engine<S, E>, sessions: map<Address, S>): Table<S> {
    Table(sessions, |Unestablished(engine, sessions)|)
  }

  /** At every point of every poll the running count is at least the number of sessions that wait, hence never
      below zero, and at most the limit or what was there before: packets alone never bring in more. */
  lemma CountIsSound<S(!new), E(!new)>(
    engine: Engine<S, E>, limits: Limits, gone: S -> bool, sessions: map<Address, S>, ps: seq<Inbound>,
    es: seq<UserEvent<E>>, time: Instant)
    requires Settles(engine, gone)
    ensures
      var heard := HearAll(engine, limits, Counted(engine, sessions), ps, time);
      && |Waiting(engine, gone, heard.sessions)| <= heard.unestablished
      && heard.unestablished <= Max(|Unestablished(engine, sessions)|, limits.maxUnestablished)
      && SendAll(engine, limits, heard, es, time).unestablished == heard.unestablished
  {
    var t := Counted(engine, sessions);
    SubsetSize(Waiting(engine, gone, sessions), Unestablished(engine, sessions));
    HearingKeepsCounts(engine, limits, gone, t, Max(t.unestablished, limits.maxUnestablished), ps, time);
    SendingKeepsCount(engine, limits, gone, HearAll(engine, limits, t, ps, time), es, time);
  }

  /** No IP address has more sessions than a non-zero limit allows. */
  predicate WithinLimit(keys: set<Address>, limits: Limits) {
    limits.maxDuplicatePeers != 0 ==> forall a :: a in keys ==> |Sharing(keys, a.ip)| <= limits.maxDuplicatePeers
  }

  lemma AcceptKeepsWithinLimit(keys: set<Address>, limits: Limits, a: Address)
    requires WithinLimit(keys, limits) && CanAccept(keys, limits, a) && a !in keys
    ensures WithinLimit(keys + {a}, limits)
  {
    forall b | b in keys + {a}
      ensures limits.maxDuplicatePeers != 0 ==> |Sharing(keys + {a}, b.ip)| <= limits.maxDuplicatePeers
    {
      SharingOneMore(keys, a, b.ip);
    }
  }

  lemma FewerKeepsWithinLimit(keys: set<Address>, fewer: set<Address>, limits: Limits)
    requires WithinLimit(keys, limits) && fewer <= keys
    ensures WithinLimit(fewer, limits)
  {
    forall a | a in fewer ensures |Sharing(fewer, a.ip)| <= |Sharing(keys, a.ip)| {
      SubsetSize(Sharing(fewer, a.ip), Sharing(keys, a.ip));
    }
  }

  lemma {:induction false} SubsetSize(a: set<Address>, b: set<Address>)
    requires a <= b
    ensures |a| <= |b|
    decreases a
  {
    if x :| x in a {
      SubsetSize(a - {x}, b - {x});
    }
  }

  lemma HearKeepsWithinLimit<S, E>(engine: Engine<S, E>, limits: Limits, t: Table<S>, p: Inbound, time: Instant)
    requires WithinLimit(t.sessions.Keys, limits)
    ensures WithinLimit(Hear(engine, limits, t, p, time).sessions.Keys, limits)
  {
    var after := Hear(engine, limits, t, p, time).sessions;
    if p.from !in t.sessions && p.from in after {
      AcceptKeepsWithinLimit(t.sessions.Keys, limits, p.from);
      assert after.Keys == t.sessions.Keys + {p.from};
    } else {
      assert after.Keys == t.sessions.Keys;
    }
  }

  lemma SendKeepsWithinLimit<S, E>(engine: Engine<S, E>, limits: Limits, t: Table<S>, e: UserEvent<E>, time: Instant)
    requires WithinLimit(t.sessions.Keys, limits)
    ensures WithinLimit(Send(engine, limits, t, e, time).sessions.Keys, limits)
  {
    var after := Send(engine, limits, t, e, time).sessions;
    if e.target !in t.sessions && e.target in after {
      AcceptKeepsWithinLimit(t.sessions.Keys, limits, e.target);
      assert after.Keys == t.sessions.Keys + {e.target};
    } else {
      assert after.Keys == t.sessions.Keys;
    }
  }

  lemma {:induction false} HearAllKeepsWithinLimit<S, E>(
    engine: Engine<S, E>, limits: Limits, t: Table<S>, ps: seq<Inbound>, time: Instant)
    requires WithinLimit(t.sessions.Keys, limits)
    ensures WithinLimit(HearAll(engine, limits, t, ps, time).sessions.Keys, limits)
  {
    if ps != [] {
      HearAllKeepsWithinLimit(engine, limits, t, ps[..|ps| - 1], time);
      HearKeepsWithinLimit(engine, limits, HearAll(engine, limits, t, ps[..|ps| - 1], time), ps[|ps| - 1], time);
    }
  }

  lemma {:induction false} SendAllKeepsWithinLimit<S, E>(
    engine: Engine<S, E>, limits: Limits, t: Table<S>, es: seq<UserEvent<E>>, time: Instant)
    requires WithinLimit(t.sessions.Keys, limits)
    ensures WithinLimit(SendAll(engine, limits, t, es, time).sessions.Keys, limits)
  {
    if es != [] {
      SendAllKeepsWithinLimit(engine, limits, t, es[..|es| - 1], time);
      SendKeepsWithinLimit(engine, limits, SendAll(engine, limits, t, es[..|es| - 1], time), es[|es| - 1], time);
    }
  }

  /** A poll keeps every IP address within the limit, whatever arrives and whatever the user sends. */
  lemma PollKeepsWithinLimit<S, E>(
    engine: Engine<S, E>, limits: Limits, sessions: map<Address, S>, ps: seq<Inbound>, es: seq<UserEvent<E>>,
    time: Instant)
    requires WithinLimit(sessions.Keys, limits)
    ensures WithinLimit(Poll(engine, limits, sessions, ps, es, time).Keys, limits)
  {
    var t := Counted(engine, sessions);
    var heard := HearAll(engine, limits, t, ps, time);
    HearAllKeepsWithinLimit(engine, limits, t, ps, time);
    SendAllKeepsWithinLimit(engine, limits, heard, es, time);
    FewerKeepsWithinLimit(
      SendAll(engine, limits, heard, es, time).sessions.Keys, Poll(engine, limits, sessions, ps, es, time).Keys,
      limits);
  }

  class SessionManager<!S, !E> {
    const engine: Engine<S, E>
    const limits: Limits
    var sessions: map<Address, S>
    var duplicatePeerCount: map<nat, nat>

    /** The index agrees with the table, and no IP address is over the limit. */
    ghost predicate Valid()
      reads this
    {
      duplicatePeerCount == CountsOf(sessions.Keys) && WithinLimit(sessions.Keys, limits)
    }

    constructor (engine: Engine<S, E>, limits: Limits)
      ensures Valid() && sessions == map[] && this.engine == engine && this.limits == limits
    {
      this.engine, this.limits := engine, limits;
      sessions, duplicatePeerCount := map[], map[];
    }

    method CanAcceptDuplicate(a: Address) returns (can: bool)
      requires Valid()
      ensures can == CanAccept(sessions.Keys, limits, a)
    {
      InCountsIff(sessions.Keys, a.ip);
      if limits.maxDuplicatePeers == 0 {
        return true;
      }
      var currentCount := if a.ip in duplicatePeerCount then duplicatePeerCount[a.ip] else 0;
      can := currentCount < limits.maxDuplicatePeers;
    }

    /** Puts a new session into the table and counts it. */
    method Insert(a: Address, s: S)
      requires Valid() && a !in sessions && CanAccept(sessions.Keys, limits, a)
      modifies this
      ensures Valid() && sessions == old(sessions)[a := s]
    {
      IncrementIsExact(sessions.Keys, a);
      AcceptKeepsWithinLimit(sessions.Keys, limits, a);
      sessions := sessions[a := s];
      assert sessions.Keys == old(sessions.Keys) + {a};
      var count := if a.ip in duplicatePeerCount then duplicatePeerCount[a.ip] else 0;
      duplicatePeerCount := duplicatePeerCount[a.ip := count + 1];
    }

    method Remove(a: Address)
      requires Valid() && a in sessions
      modifies this
      ensures Valid() && sessions == old(sessions) - {a}
    {
      DecrementIsExact(sessions.Keys, a);
      FewerKeepsWithinLimit(sessions.Keys, sessions.Keys - {a}, limits);
      InCountsIff(sessions.Keys, a.ip);
      sessions := sessions - {a};
      assert sessions.Keys == old(sessions.Keys) - {a};
      if a.ip in duplicatePeerCount {
        var count := duplicatePeerCount[a.ip] - 1;
        if count == 0 {
          duplicatePeerCount := duplicatePeerCount - {a.ip};
        } else {
          duplicatePeerCount := duplicatePeerCount[a.ip := count];
        }
      }
    }

    method Replace(a: Address, s: S, unestablished: int) returns (left: int)
      requires Valid() && a in sessions
      modifies this
      ensures Valid() && Table(sessions, left) == Settled(engine, old(Table(sessions, unestablished)), a, s)
    {
      var wasEst := engine.isEstablished(sessions[a]);
      sessions := sessions[a := s];
      assert sessions.Keys == old(sessions.Keys);
      left := if !wasEst && engine.isEstablished(s) then unestablished - 1 else unestablished;
    }

    method HandlePacket(p: Inbound, unestablished: int, time: Instant) returns (left: int)
      requires Valid()
      modifies this
      ensures Valid() && Table(sessions, left) == Hear(engine, limits, old(Table(sessions, unestablished)), p, time)
    {
      left := unestablished;
      if p.from in sessions {
        left := Replace(p.from, engine.processPacket(sessions[p.from], p.payload, time), unestablished);
      } else {
        var session := engine.processPacket(engine.create(p.from, time), p.payload, time);
        var can := CanAcceptDuplicate(p.from);
        if unestablished < limits.maxUnestablished && can {
          Insert(p.from, session);
          left := unestablished + 1;
        }
      }
    }

    method HandleEvent(e: UserEvent<E>, unestablished: int, time: Instant) returns (left: int)
      requires Valid()
      modifies this
      ensures Valid() && Table(sessions, left) == Send(engine, limits, old(Table(sessions, unestablished)), e, time)
    {
      left := unestablished;
      var can := CanAcceptDuplicate(e.target);
      if e.target in sessions {
        left := Replace(e.target, engine.processEvent(sessions[e.target], e.event, time), unestablished);
      } else if can {
        Insert(e.target, engine.processEvent(engine.create(e.target, time), e.event, time));
      }
    }

    method Assign(a: Address, s: S)
      requires Valid() && a in sessions
      modifies this`sessions
      ensures Valid() && sessions == old(sessions)[a := s] && sessions.Keys == old(sessions.Keys)
    {
      sessions := sessions[a := s];
      assert sessions.Keys == old(sessions.Keys);
    }

    method UpdateSessions(time: Instant)
      requires Valid()
      modifies this`sessions
      ensures Valid() && sessions == UpdateAll(engine, old(sessions), time)
    {
      ghost var was := sessions;
      var pending := sessions.Keys;
      while pending != {}
        invariant Valid() && sessions.Keys == was.Keys && pending <= was.Keys
        invariant forall a :: a in was ==> sessions[a] == if a in pending then was[a] else engine.update(was[a], time)
        decreases pending
      {
        var a :| a in pending;
        Assign(a, engine.update(sessions[a], time));
        pending := pending - {a};
      }
    }

    method AskSessions(time: Instant) returns (toDrop: set<Address>)
      requires Valid()
      modifies this`sessions
      ensures Valid() && sessions == AskAll(engine, old(sessions), time)
      ensures toDrop == ToDrop(engine, old(sessions), time)
    {
      ghost var was := sessions;
      toDrop := {};
      var pending := sessions.Keys;
      while pending != {}
        invariant Valid() && sessions.Keys == was.Keys && pending <= was.Keys
        invariant forall a :: a in toDrop <==> a in was && a !in pending && engine.shouldDrop(was[a], time).1
        invariant forall a :: a in was ==>
          sessions[a] == if a in pending then was[a] else engine.shouldDrop(was[a], time).0
        decreases pending
      {
        var a :| a in pending;
        var (s, drop) := engine.shouldDrop(sessions[a], time);
        Assign(a, s);
        pending := pending - {a};
        if drop {
          toDrop := toDrop + {a};
        }
      }
    }

    method DropSessions(toDrop: set<Address>)
      requires Valid() && toDrop <= sessions.Keys
      modifies this
      ensures Valid() && sessions == old(sessions) - toDrop
    {
      var left := toDrop;
      while left != {}
        invariant Valid() && left <= toDrop && left <= sessions.Keys && sessions == old(sessions) - (toDrop - left)
        decreases left
      {
        var a :| a in left;
        Remove(a);
        left := left - {a};
      }
    }

    /** Updates every session, asks each whether to drop it, and drops those, in whatever order. */
    method SweepSessions(time: Instant)
      requires Valid()
      modifies this
      ensures Valid() && sessions == Sweep(engine, old(sessions), time)
    {
      UpdateSessions(time);
      var toDrop := AskSessions(time);
      DropSessions(toDrop);
    }

    /** A poll: the packets received, then the user's events, then the sweep. */
    method ManualPoll(packets: seq<Inbound>, events: seq<UserEvent<E>>, time: Instant)
      requires Valid()
      modifies this
      ensures Valid() && sessions == Poll(engine, limits, old(sessions), packets, events, time)
    {
      ghost var start := Counted(engine, sessions);
      var unestablished: int := |Unestablished(engine, sessions)|;
      for k := 0 to |packets|
        invariant Valid() && Table(sessions, unestablished) == HearAll(engine, limits, start, packets[..k], time)
      {
        assert packets[..k + 1][..k] == packets[..k];
        unestablished := HandlePacket(packets[k], unestablished, time);
      }
      assert packets[..|packets|] == packets;
      ghost var heard := Table(sessions, unestablished);
      for k := 0 to |events|
        invariant Valid() && Table(sessions, unestablished) == SendAll(engine, limits, heard, events[..k], time)
      {
        assert events[..k + 1][..k] == events[..k];
        unestablished := HandleEvent(events[k], unestablished, time);
      }
      assert events[..|events|] == events;
      SweepSessions(time);
    }
  }
}

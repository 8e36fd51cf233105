/** Packets that an ordered channel takes for others of the same name, delivered ones that come in late and those a
    lap ahead: when they do no harm, over every run. */
module LateArrivals {
  import opened Numbers
  import opened Channel
  import opened ChannelHistory

  /** The first number from `from` on that has not arrived. */
  function NextGap(arrived: set<nat>, from: nat): (gap: nat)
    ensures from <= gap && gap !in arrived
    ensures forall n: nat :: from <= n < gap ==> n in arrived
    decreases arrived
  {
    if from in arrived then NextGap(arrived - {from}, from + 1) else from
  }

  lemma NextGapIs(arrived: set<nat>, from: nat, gap: nat)
    requires from <= gap && gap !in arrived && forall n: nat :: from <= n < gap ==> n in arrived
    ensures NextGap(arrived, from) == gap
  {
  }

  /** The first number from `from` on with the name of `n`. */
  function Namesake(n: nat, from: nat): (m: nat)
    ensures from <= m < from + 0x1_0000 && Wrap(m) == Wrap(n)
  {
    WrapPlus(n - from, from);
    from + Wrap(n - from)
  }

  /** What an arrival with `gap` packets delivered leaves out of place: a packet below the gap or a lap above it takes
      the place of another with its name, and one a lap above has no place of its own yet. */
  function Displaced(n: nat, gap: nat): set<nat> {
    (if gap <= n < gap + 0x1_0000 then {} else {Namesake(n, gap)}) + if gap + 0x1_0000 <= n then {n} else {}
  }

  /** What has arrived, the first gap in it, and the numbers out of place: they are owed an arrival. */
  datatype Tally = Tally(arrived: set<nat>, gap: nat, owed: set<nat>) {
    predicate Valid() { gap !in arrived && forall n: nat :: n < gap ==> n in arrived }

    function After(n: nat): Tally {
      Tally(arrived + {n}, NextGap(arrived + {n}, gap), owed - {n} + Displaced(n, gap))
    }

    /** No number up to the gap is owed. */
    predicate Harmless() { forall n :: n in owed ==> gap < n }
  }

  function TallyOf(t: Tally, arrivals: seq<nat>): Tally {
    if arrivals == [] then t else TallyOf(t, arrivals[..|arrivals| - 1]).After(arrivals[|arrivals| - 1])
  }

  lemma {:induction false} TallyStaysValid(t: Tally, arrivals: seq<nat>)
    requires t.Valid()
    ensures TallyOf(t, arrivals).Valid() && t.gap <= TallyOf(t, arrivals).gap
    decreases |arrivals|
  {
    if arrivals != [] {
      TallyStaysValid(t, arrivals[..|arrivals| - 1]);
    }
  }

  /** At no point of the run is a number up to the gap owed. */
  predicate AlwaysHarmless(t: Tally, arrivals: seq<nat>) {
    TallyOf(t, arrivals).Harmless() && (arrivals == [] || AlwaysHarmless(t, arrivals[..|arrivals| - 1]))
  }

  /** At every point of the run the outputs so far are the stream up to the gap. */
  predicate AlwaysRight(c: Channel, payload: nat -> bytes, t: Tally, arrivals: seq<nat>)
    requires t.Valid()
  {
    TallyStaysValid(t, arrivals);
    && Outputs(c, payload, arrivals) == Stream(payload, t.gap, TallyOf(t, arrivals).gap)
    && (arrivals == [] || AlwaysRight(c, payload, t, arrivals[..|arrivals| - 1]))
  }

  ghost predicate Injective(payload: nat -> bytes) { forall m, n :: payload(m) == payload(n) ==> m == n }

  // ----- draining -----

  /** A channel that has come to `from`: it holds the packets that arrived, and others in the places of those owed. */
  ghost predicate Tracks(c: Channel, payload: nat -> bytes, t: Tally, from: nat) {
    && c.expected == Wrap(from) && from <= t.gap
    && InReach(t, from)
    && (forall n: nat :: from <= n < from + 0x1_0000 ==> Holds(c, payload, t, n))
  }

  predicate InReach(t: Tally, from: nat) {
    && (forall n :: n in t.arrived && from + 0x1_0000 <= n ==> n in t.owed)
    && (forall n :: n in t.owed ==> from <= n && (n !in t.arrived ==> n < from + 0x1_0000))
  }

  ghost predicate Holds(c: Channel, payload: nat -> bytes, t: Tally, n: nat) {
    var k := Wrap(n);
    && (k in c.buffered ==> n in t.arrived || n in t.owed)
    && (n in t.arrived && n !in t.owed ==> k in c.buffered && c.buffered[k] == payload(n))
    && (n in t.owed && n !in t.arrived ==> k in c.buffered)
    && (n in t.owed && k in c.buffered ==> IsAnother(c.buffered[k], payload, n))
  }

  ghost predicate IsAnother(data: bytes, payload: nat -> bytes, n: nat) {
    exists m: nat :: m != n && data == payload(m)
  }

  lemma TakeKeepsTracks(c: Channel, payload: nat -> bytes, t: Tally, from: nat)
    requires Tracks(c, payload, t, from) && from in t.arrived && from !in t.owed && from < t.gap
    ensures c.expected in c.buffered && c.buffered[c.expected] == payload(from)
    ensures Tracks(c.Take(), payload, t, from + 1)
  {
    assert Holds(c, payload, t, from);
    WrapPlus(from, 1);
    forall n: nat | from + 1 <= n < from + 1 + 0x1_0000 ensures Holds(c.Take(), payload, t, n) {
      if n < from + 0x1_0000 {
        assert Holds(c, payload, t, n);
        if Wrap(n) == Wrap(from) {
          WrapInjective(n, from);
        }
      } else {
        WrapWholeLaps(from, 1);
      }
    }
  }

  /** A drain from `from` hands up the stream to the gap if no number on the way is owed, and only then. */
  lemma {:induction false} DrainIsRightIff(c: Channel, payload: nat -> bytes, t: Tally, from: nat)
    requires t.Valid() && Tracks(c, payload, t, from)
    ensures t.Harmless() ==> c.Ready() == Stream(payload, from, t.gap) && Tracks(c.AfterReady(), payload, t, t.gap)
    ensures Injective(payload) && c.Ready() == Stream(payload, from, t.gap) ==> t.Harmless()
    decreases |c.buffered|
  {
    assert Holds(c, payload, t, from);
    if from in t.owed {
      if c.expected in c.buffered {
        WrongFirst(c, payload, from, t.gap);
      } else {
        assert |Stream(payload, from, t.gap)| > 0 && c.Ready() == [];
      }
    } else if from in t.arrived {
      TakeKeepsTracks(c, payload, t, from);
      DrainIsRightIff(c.Take(), payload, t, from + 1);
      DrainFirst(c, payload, from, t.gap);
    }
  }

  lemma WrongFirst(c: Channel, payload: nat -> bytes, from: nat, gap: nat)
    requires from <= gap && c.expected in c.buffered && IsAnother(c.buffered[c.expected], payload, from)
    ensures Injective(payload) ==> c.Ready() != Stream(payload, from, gap)
  {
    assert c.Ready()[0] == c.buffered[c.expected];
    if c.Ready() == Stream(payload, from, gap) {
      assert Stream(payload, from, gap)[0] == payload(from);
    }
  }

  lemma DrainFirst(c: Channel, payload: nat -> bytes, from: nat, gap: nat)
    requires from < gap && c.expected in c.buffered && c.buffered[c.expected] == payload(from)
    ensures c.Ready() == Stream(payload, from, gap) <==> c.Take().Ready() == Stream(payload, from + 1, gap)
    ensures c.AfterReady() == c.Take().AfterReady()
  {
    StreamFirst(payload, from, gap);
    var rest, all := c.Take().Ready(), Stream(payload, from + 1, gap);
    assert c.Ready() == [payload(from)] + rest;
    if [payload(from)] + rest == [payload(from)] + all {
      assert rest == ([payload(from)] + rest)[1..] && all == ([payload(from)] + all)[1..];
    }
  }

  // ----- runs -----

  lemma BufferKeepsTracks(c: Channel, payload: nat -> bytes, t: Tally, n: nat)
    requires t.Valid() && Tracks(c, payload, t, t.gap) && t.Harmless()
    ensures Tracks(c.Buffer(Wrap(n), payload(n)), payload, t.After(n), t.gap)
  {
    var d, u := c.Buffer(Wrap(n), payload(n)), t.After(n);
    var place := Namesake(n, t.gap);
    forall m: nat | t.gap <= m < t.gap + 0x1_0000 ensures Holds(d, payload, u, m) {
      assert Holds(c, payload, t, m);
      if Wrap(m) == Wrap(n) {
        WrapInjective(m, place);
        if m != n {
          assert IsAnother(payload(n), payload, m);
        }
      }
    }
  }

  /** From any channel that is in order: over every run, outputs are right throughout if and only if what is out of
      place is harmless throughout; for the one direction no two payloads may be alike. */
  lemma {:induction false} RunIsRightIff(c: Channel, payload: nat -> bytes, t: Tally, arrivals: seq<nat>)
    requires t.Valid() && t.Harmless() && Tracks(c, payload, t, t.gap)
    ensures AlwaysHarmless(t, arrivals) ==>
      && AlwaysRight(c, payload, t, arrivals)
      && Tracks(AfterRun(c, payload, arrivals), payload, TallyOf(t, arrivals), TallyOf(t, arrivals).gap)
    ensures Injective(payload) && AlwaysRight(c, payload, t, arrivals) ==> AlwaysHarmless(t, arrivals)
    decreases |arrivals|
  {
    if arrivals == [] {
      assert Stream(payload, t.gap, t.gap) == [];
    } else {
      var before, n := arrivals[..|arrivals| - 1], arrivals[|arrivals| - 1];
      assert arrivals == before + [n];
      RunIsRightIff(c, payload, t, before);
      TallyStaysValid(t, before);
      if AlwaysHarmless(t, before) {
        OneMoreIsRightIff(c, payload, t, before, n);
      }
    }
  }

  lemma OneMoreIsRightIff(c: Channel, payload: nat -> bytes, t: Tally, before: seq<nat>, n: nat)
    requires t.Valid() && TallyOf(t, before).Harmless()
    requires TallyOf(t, before).Valid() && t.gap <= TallyOf(t, before).gap
    requires Tracks(AfterRun(c, payload, before), payload, TallyOf(t, before), TallyOf(t, before).gap)
    requires Outputs(c, payload, before) == Stream(payload, t.gap, TallyOf(t, before).gap)
    ensures
      var u := TallyOf(t, before).After(n);
      && u.Valid() && t.gap <= u.gap
      && (u.Harmless() ==>
            && Outputs(c, payload, before + [n]) == Stream(payload, t.gap, u.gap)
            && Tracks(AfterRun(c, payload, before + [n]), payload, u, u.gap))
      && (Injective(payload) && Outputs(c, payload, before + [n]) == Stream(payload, t.gap, u.gap) ==> u.Harmless())
  {
    var s := TallyOf(t, before);
    var u := s.After(n);
    var b := AfterRun(c, payload, before).Buffer(Wrap(n), payload(n));
    BufferKeepsTracks(AfterRun(c, payload, before), payload, s, n);
    DrainIsRightIff(b, payload, u, s.gap);
    OutputsOneMore(c, payload, before, n);
    StreamInParts(payload, t.gap, s.gap, u.gap);
    SameSuffix(Outputs(c, payload, before), b.Ready(), Stream(payload, s.gap, u.gap));
  }

  lemma SameSuffix(a: seq<bytes>, b: seq<bytes>, c: seq<bytes>)
    ensures a + b == a + c <==> b == c
  {
    assert b == (a + b)[|a|..] && c == (a + c)[|a|..];
  }

  // ----- the condition, arrival by arrival -----

  function Nothing(): Tally { Tally({}, 0, {}) }

  /** The number of packets before the first gap. */
  function GapOf(arrivals: seq<nat>): nat { TallyOf(Nothing(), arrivals).gap }

  lemma {:induction false} GapIsFirst(arrivals: seq<nat>)
    ensures TallyOf(Nothing(), arrivals).arrived == Arrived(arrivals) && IsFirstGap(GapOf(arrivals), Arrived(arrivals))
    decreases |arrivals|
  {
    TallyStaysValid(Nothing(), arrivals);
    if arrivals != [] {
      GapIsFirst(arrivals[..|arrivals| - 1]);
      assert Arrived(arrivals) == Arrived(arrivals[..|arrivals| - 1]) + {arrivals[|arrivals| - 1]};
    }
  }

  /** What arrival `i` leaves out of place. */
  function DisplacedBy(arrivals: seq<nat>, i: nat): set<nat>
    requires i < |arrivals|
  {
    Displaced(arrivals[i], GapOf(arrivals[..i]))
  }

  /** Packet `n` arrives after arrival `i`. */
  predicate ComesAfter(arrivals: seq<nat>, i: nat, n: nat) { exists j :: i < j < |arrivals| && arrivals[j] == n }

  /** Arrival `i` left `n` out of place, and it has not come since. */
  predicate Owes(arrivals: seq<nat>, i: nat, n: nat) {
    i < |arrivals| && n in DisplacedBy(arrivals, i) && !ComesAfter(arrivals, i, n)
  }

  lemma OwesOneMore(before: seq<nat>, last: nat, i: nat, n: nat)
    requires i < |before|
    ensures Owes(before + [last], i, n) <==> Owes(before, i, n) && n != last
  {
    var all := before + [last];
    assert all[..i] == before[..i];
    if ComesAfter(before, i, n) {
      var j :| i < j < |before| && before[j] == n;
      assert all[j] == n;
    }
    assert all[|before|] == last;
    if ComesAfter(all, i, n) && n != last {
      var j :| i < j < |all| && all[j] == n;
      assert before[j] == n;
    }
  }

  lemma LastOwes(before: seq<nat>, last: nat, n: nat)
    ensures Owes(before + [last], |before|, n) <==> n in Displaced(last, GapOf(before))
  {
    assert (before + [last])[..|before|] == before;
  }

  predicate IsOwed(arrivals: seq<nat>, n: nat) { exists i: nat :: i < |arrivals| && Owes(arrivals, i, n) }

  lemma OwedOneMore(before: seq<nat>, last: nat, n: nat)
    ensures IsOwed(before + [last], n) <==>
      (IsOwed(before, n) && n != last) || n in Displaced(last, GapOf(before))
  {
    LastOwes(before, last, n);
    if IsOwed(before, n) {
      var i: nat :| i < |before| && Owes(before, i, n);
      OwesOneMore(before, last, i, n);
    }
    if IsOwed(before + [last], n) {
      var i: nat :| i < |before| + 1 && Owes(before + [last], i, n);
      if i < |before| {
        OwesOneMore(before, last, i, n);
      }
    }
  }

  /** A number is owed exactly when some arrival left it out of place and it has not come since. */
  lemma {:induction false} OwedIff(arrivals: seq<nat>, n: nat)
    ensures n in TallyOf(Nothing(), arrivals).owed <==> IsOwed(arrivals, n)
    decreases |arrivals|
  {
    if arrivals != [] {
      var before, last := arrivals[..|arrivals| - 1], arrivals[|arrivals| - 1];
      assert arrivals == before + [last];
      OwedIff(before, n);
      OwedOneMore(before, last, n);
    }
  }

  /** Whatever was left out of place so far has come since if the gap has reached it. */
  predicate InTimeSoFar(arrivals: seq<nat>) {
    forall i: nat, n: nat :: i < |arrivals| && n in DisplacedBy(arrivals, i) && n <= GapOf(arrivals) ==>
      ComesAfter(arrivals, i, n)
  }

  /** Whatever an arrival leaves out of place comes after it and before the gap has reached it. */
  predicate InTime(arrivals: seq<nat>) {
    InTimeSoFar(arrivals) && (arrivals == [] || InTime(arrivals[..|arrivals| - 1]))
  }

  lemma InTimeOwesNothing(arrivals: seq<nat>, n: nat)
    requires InTimeSoFar(arrivals) && n in TallyOf(Nothing(), arrivals).owed
    ensures GapOf(arrivals) < n
  {
    OwedIff(arrivals, n);
    var i: nat :| i < |arrivals| && Owes(arrivals, i, n);
    assert n <= GapOf(arrivals) ==> ComesAfter(arrivals, i, n);
  }

  lemma HarmlessComesAfter(arrivals: seq<nat>, i: nat, n: nat)
    requires TallyOf(Nothing(), arrivals).Harmless()
    requires i < |arrivals| && n in DisplacedBy(arrivals, i) && n <= GapOf(arrivals)
    ensures ComesAfter(arrivals, i, n)
  {
    OwedIff(arrivals, n);
    assert !ComesAfter(arrivals, i, n) ==> Owes(arrivals, i, n);
  }

  lemma SoFarIffHarmless(arrivals: seq<nat>)
    ensures InTimeSoFar(arrivals) <==> TallyOf(Nothing(), arrivals).Harmless()
  {
    var t := TallyOf(Nothing(), arrivals);
    if InTimeSoFar(arrivals) {
      forall n | n in t.owed ensures t.gap < n {
        InTimeOwesNothing(arrivals, n);
      }
    }
    if t.Harmless() {
      forall i: nat, n: nat | i < |arrivals| && n in DisplacedBy(arrivals, i) && n <= GapOf(arrivals)
        ensures ComesAfter(arrivals, i, n)
      {
        HarmlessComesAfter(arrivals, i, n);
      }
    }
  }

  lemma {:induction false} InTimeIffHarmless(arrivals: seq<nat>)
    ensures InTime(arrivals) <==> AlwaysHarmless(Nothing(), arrivals)
    decreases |arrivals|
  {
    SoFarIffHarmless(arrivals);
    if arrivals != [] {
      InTimeIffHarmless(arrivals[..|arrivals| - 1]);
    }
  }

  lemma NewChannelTracks(payload: nat -> bytes)
    ensures Nothing().Valid() && Nothing().Harmless() && Tracks(NewChannel(), payload, Nothing(), 0)
  {
  }

  /** Over every run of a fresh channel, any numbers in any order: the outputs are at every point the stream up to the
      first gap, if and only if for each arrival of a packet delivered before, or a lap or more ahead, the next
      packet of its name comes after it and before the gap reaches that one, and so does the packet itself when
      it was ahead. For the one direction no two payloads may be alike. */
  lemma OrderIsRightIff(payload: nat -> bytes, arrivals: seq<nat>)
    ensures InTime(arrivals) ==> AlwaysRight(NewChannel(), payload, Nothing(), arrivals)
    ensures Injective(payload) && AlwaysRight(NewChannel(), payload, Nothing(), arrivals) ==> InTime(arrivals)
  {
    InTimeIffHarmless(arrivals);
    NewChannelTracks(payload);
    RunIsRightIff(NewChannel(), payload, Nothing(), arrivals);
  }

  lemma LaterNamesake(n: nat, from: nat)
    requires n < from
    ensures n + 0x1_0000 <= Namesake(n, from)
  {
    if Namesake(n, from) < n + 0x1_0000 {
      WrapInjective(Namesake(n, from), n);
    }
  }

  lemma {:induction false} AdmissibleOwesBeyond(arrivals: seq<nat>, length: nat)
    requires Admissible(arrivals, length)
    ensures AlwaysHarmless(Nothing(), arrivals) && GapOf(arrivals) <= length
    ensures forall n :: n in TallyOf(Nothing(), arrivals).owed ==> length < n
    ensures forall n :: n in Arrived(arrivals) ==> n < length
    decreases |arrivals|
  {
    GapIsFirst(arrivals);
    if arrivals != [] {
      var before, last := arrivals[..|arrivals| - 1], arrivals[|arrivals| - 1];
      assert Arrived(arrivals) == Arrived(before) + {last};
      AdmissibleOwesBeyond(before, length);
      GapIsFirst(before);
      assert MayArrive(GapOf(before), last, length);
      if last < GapOf(before) {
        LaterNamesake(last, GapOf(before));
      }
      assert length !in Arrived(arrivals);
    }
  }

  /** The runs of a stream that ends before any late packet's name comes round again are among these. */
  lemma AdmissibleIsInTime(arrivals: seq<nat>, length: nat)
    requires Admissible(arrivals, length)
    ensures InTime(arrivals)
  {
    AdmissibleOwesBeyond(arrivals, length);
    InTimeIffHarmless(arrivals);
  }

  // ----- one late packet -----

  /** In order up to `next`. */
  function UpTo(next: nat): Tally { Tally(Below(next), next, {}) }

  function Below(n: nat): (s: set<nat>)
    ensures forall k: nat :: k in s <==> k < n
  {
    if n == 0 then {} else Below(n - 1) + {n - 1}
  }

  function InOrder(from: nat, end: nat): seq<nat>
    requires from <= end
  {
    seq(end - from, i requires 0 <= i < end - from => from + i)
  }

  function InOrderChannel(next: nat, latest: u16): Channel { Channel(Wrap(next), map[], latest) }

  lemma InOrderTracks(payload: nat -> bytes, next: nat, latest: u16)
    ensures UpTo(next).Valid() && UpTo(next).Harmless()
    ensures Tracks(InOrderChannel(next, latest), payload, UpTo(next), next)
  {
  }

  lemma InOrderOneMore(n: nat, next: nat, end: nat)
    requires next < end
    ensures [n] + InOrder(next, end) == [n] + InOrder(next, end - 1) + [end - 1]
  {
  }

  /** One late packet and then the stream in order: what is owed is the next packet of its name. */
  predicate OwesOnly(t: Tally, n: nat, end: nat) {
    t.gap == end && t.arrived == Below(end) && (end <= n + 0x1_0000 ==> t.owed == {n + 0x1_0000})
  }

  lemma OwesOnlyStarts(n: nat, next: nat)
    requires n < next <= n + 0x1_0000
    ensures OwesOnly(UpTo(next).After(n), n, next)
  {
    assert Below(next) + {n} == Below(next);
    NextGapIs(Below(next), next, next);
    LateName(n, next);
  }

  lemma OwesOnlyGoesOn(t: Tally, n: nat, end: nat)
    requires OwesOnly(t, n, end)
    ensures OwesOnly(t.After(end), n, end + 1)
  {
    assert Below(end) + {end} == Below(end + 1);
    NextGapIs(Below(end + 1), end, end + 1);
  }

  lemma OneTally(t: Tally, n: nat)
    ensures TallyOf(t, [n]) == t.After(n)
    ensures AlwaysHarmless(t, [n]) <==> t.Harmless() && t.After(n).Harmless()
  {
    assert [n][..0] == [];
    assert TallyOf(t, []) == t && (AlwaysHarmless(t, []) <==> t.Harmless());
  }

  /** The run from `t` has come to `end`: what it owes, and whether it was harmless throughout. */
  predicate HasComeTo(t: Tally, run: seq<nat>, n: nat, end: nat) {
    OwesOnly(TallyOf(t, run), n, end) && (AlwaysHarmless(t, run) <==> end < n + 0x1_0000)
  }

  lemma ComesToStart(n: nat, next: nat)
    requires n < next <= n + 0x1_0000
    ensures HasComeTo(UpTo(next), [n], n, next)
  {
    OneTally(UpTo(next), n);
    OwesOnlyStarts(n, next);
  }

  lemma ComesToNext(t: Tally, before: seq<nat>, run: seq<nat>, n: nat, end: nat)
    requires HasComeTo(t, before, n, end) && run == before + [end]
    ensures HasComeTo(t, run, n, end + 1)
  {
    assert run[..|run| - 1] == before;
    OwesOnlyGoesOn(TallyOf(t, before), n, end);
  }

  lemma {:induction false} InOrderTally(n: nat, next: nat, end: nat)
    requires n < next <= n + 0x1_0000 && next <= end
    ensures HasComeTo(UpTo(next), [n] + InOrder(next, end), n, end)
    decreases end
  {
    if next == end {
      assert [n] + InOrder(next, end) == [n];
      ComesToStart(n, next);
    } else {
      InOrderTally(n, next, end - 1);
      InOrderOneMore(n, next, end);
      ComesToNext(UpTo(next), [n] + InOrder(next, end - 1), [n] + InOrder(next, end), n, end - 1);
    }
  }

  lemma LateName(n: nat, next: nat)
    requires n < next <= n + 0x1_0000
    ensures Namesake(n, next) == n + 0x1_0000
  {
    WrapWholeLaps(n, 1);
    WrapInjective(Namesake(n, next), n + 0x1_0000);
  }

  /** When the stream goes on in order behind a late packet, the packet is harmless exactly until the one before the
      next of its name has come. */
  lemma InOrderLateIff(payload: nat -> bytes, n: nat, next: nat, end: nat, latest: u16)
    requires n < next <= n + 0x1_0000 && next <= end
    ensures UpTo(next).Valid()
    ensures
      end < n + 0x1_0000 ==> AlwaysRight(InOrderChannel(next, latest), payload, UpTo(next), [n] + InOrder(next, end))
    ensures
      Injective(payload) && AlwaysRight(InOrderChannel(next, latest), payload, UpTo(next), [n] + InOrder(next, end)) ==>
        end < n + 0x1_0000
  {
    InOrderTracks(payload, next, latest);
    InOrderTally(n, next, end);
    RunIsRightIff(InOrderChannel(next, latest), payload, UpTo(next), [n] + InOrder(next, end));
  }

  lemma OvertakingTally(n: nat)
    ensures
      var next := n + 65535;
      var u := Tally(Below(next), next, {n + 65536});
      var v := Tally(Below(next) + {n + 65536}, next, {});
      && UpTo(next).After(n) == u && u.After(n + 65536) == v
      && v.After(next) == Tally(Below(n + 65537), n + 65537, {})
  {
    var next := n + 65535;
    OwesOnlyStarts(n, next);
    NextGapIs(Below(next) + {n + 65536}, next, next);
    assert Below(next) + {n + 65536} + {next} == Below(n + 65537);
    NextGapIs(Below(n + 65537), next, n + 65537);
  }

  lemma TallyOfThree(t: Tally, a: nat, b: nat, c: nat)
    ensures TallyOf(t, [a, b, c]) == t.After(a).After(b).After(c)
    ensures AlwaysHarmless(t, [a, b, c]) <==>
      t.Harmless() && t.After(a).Harmless() && t.After(a).After(b).Harmless() && t.After(a).After(b).After(c).Harmless()
  {
    assert [a, b, c][..2] == [a, b] && [a, b][..1] == [a] && [a][..0] == [];
    assert TallyOf(t, []) == t && TallyOf(t, [a]) == t.After(a) && TallyOf(t, [a, b]) == t.After(a).After(b);
    assert AlwaysHarmless(t, []) <==> t.Harmless();
    assert AlwaysHarmless(t, [a]) <==> t.Harmless() && t.After(a).Harmless();
    assert AlwaysHarmless(t, [a, b]) <==> AlwaysHarmless(t, [a]) && t.After(a).After(b).Harmless();
  }

  lemma OvertakingTallies(n: nat)
    ensures
      var t := TallyOf(UpTo(n + 65535), [n, n + 65536, n + 65535]);
      t.gap == n + 65537 && AlwaysHarmless(UpTo(n + 65535), [n, n + 65536, n + 65535])
  {
    OvertakingTally(n);
    TallyOfThree(UpTo(n + 65535), n, n + 65536, n + 65535);
  }

  lemma HarmlessIsRight(c: Channel, payload: nat -> bytes, t: Tally, arrivals: seq<nat>, gap: nat)
    requires t.Valid() && t.Harmless() && Tracks(c, payload, t, t.gap)
    requires AlwaysHarmless(t, arrivals) && TallyOf(t, arrivals).gap == gap
    ensures t.gap <= gap && Outputs(c, payload, arrivals) == Stream(payload, t.gap, gap)
  {
    TallyStaysValid(t, arrivals);
    RunIsRightIff(c, payload, t, arrivals);
  }

  lemma StreamOfTwo(payload: nat -> bytes, from: nat)
    ensures Stream(payload, from, from + 2) == [payload(from), payload(from + 1)]
  {
  }

  /** Out of order it may stay harmless for good: here the next packet of its name overtakes the one before. */
  lemma OvertakingIsHarmless(payload: nat -> bytes, n: nat, latest: u16)
    ensures
      Outputs(InOrderChannel(n + 65535, latest), payload, [n, n + 65536, n + 65535])
        == [payload(n + 65535), payload(n + 65536)]
  {
    InOrderTracks(payload, n + 65535, latest);
    OvertakingTallies(n);
    HarmlessIsRight(InOrderChannel(n + 65535, latest), payload, UpTo(n + 65535), [n, n + 65536, n + 65535], n + 65537);
    StreamOfTwo(payload, n + 65535);
  }
}

/** Sequenced delivery over absolute packet numbers, across 16-bit wraps. */
module SequencedHistory {
  import opened Numbers
  import opened Channel

  /** Number 0 and the names of whole laps pass in any case. */
  predicate Passes(latest: nat, n: nat) { latest <= n || Wrap(n) == 0 }

  function Latest(latest: nat, n: nat): nat { if Passes(latest, n) then n else latest }

  /** Less than half a lap ahead of the latest packet passed, or at most half a lap behind it. */
  predicate InRange(latest: nat, n: nat) { -32768 <= n - latest < 32768 }

  /** In range a packet passes exactly when it is not behind the latest one or its name is 0. */
  lemma NewerIff(c: Channel, latest: nat, n: nat)
    requires c.latest == Wrap(latest) && InRange(latest, n)
    ensures c.Newer(Wrap(n)) <==> Passes(latest, n)
    ensures c.Sequence(Wrap(n)).latest == Wrap(Latest(latest, n))
  {
    WrapHomomorphic(n, latest);
  }

  ghost predicate InRangeRun(latest: nat, arrivals: seq<nat>)
    decreases |arrivals|
  {
    arrivals == [] || (InRange(latest, arrivals[0]) && InRangeRun(Latest(latest, arrivals[0]), arrivals[1..]))
  }

  /** The packets that a channel passes on, by their names. */
  function PassedBy(c: Channel, arrivals: seq<nat>): seq<nat>
    decreases |arrivals|
  {
    if arrivals == [] then []
    else
      (if c.Newer(Wrap(arrivals[0])) then [arrivals[0]] else [])
      + PassedBy(c.Sequence(Wrap(arrivals[0])), arrivals[1..])
  }

  /** The same, by their absolute numbers. */
  function Passed(latest: nat, arrivals: seq<nat>): seq<nat>
    decreases |arrivals|
  {
    if arrivals == [] then []
    else
      (if Passes(latest, arrivals[0]) then [arrivals[0]] else []) + Passed(Latest(latest, arrivals[0]), arrivals[1..])
  }

  /** Some packet whose name is 0 comes in behind the latest one. */
  predicate LateZero(latest: nat, arrivals: seq<nat>)
    decreases |arrivals|
  {
    arrivals != []
    && ((arrivals[0] < latest && Wrap(arrivals[0]) == 0) || LateZero(Latest(latest, arrivals[0]), arrivals[1..]))
  }

  predicate Ascending(s: seq<nat>) { forall i, j :: 0 <= i < j < |s| ==> s[i] <= s[j] }

  lemma {:induction false} PassedByIsPassed(c: Channel, latest: nat, arrivals: seq<nat>)
    requires c.latest == Wrap(latest) && InRangeRun(latest, arrivals)
    ensures PassedBy(c, arrivals) == Passed(latest, arrivals)
    decreases |arrivals|
  {
    if arrivals != [] {
      NewerIff(c, latest, arrivals[0]);
      PassedByIsPassed(c.Sequence(Wrap(arrivals[0])), Latest(latest, arrivals[0]), arrivals[1..]);
    }
  }

  lemma AscendingRest(first: nat, rest: seq<nat>)
    requires Ascending([first] + rest)
    ensures Ascending(rest) && (rest != [] ==> first <= rest[0])
  {
    var s := [first] + rest;
    forall i, j | 0 <= i < j < |rest| ensures rest[i] <= rest[j] {
      assert s[i + 1] == rest[i] && s[j + 1] == rest[j];
    }
    if rest != [] {
      assert s[0] == first && s[1] == rest[0];
    }
  }

  lemma AscendingMore(first: nat, rest: seq<nat>)
    requires Ascending(rest) && (rest != [] ==> first <= rest[0])
    ensures Ascending([first] + rest)
  {
    var s := [first] + rest;
    forall i, j | 0 <= i < j < |s| ensures s[i] <= s[j] {
      assert s[j] == rest[j - 1];
      if i > 0 {
        assert s[i] == rest[i - 1];
      } else if j > 1 {
        assert rest[0] <= rest[j - 1];
      }
    }
  }

  lemma AscendingFrom(first: nat, rest: seq<nat>)
    ensures Ascending([first] + rest) <==> Ascending(rest) && (rest != [] ==> first <= rest[0])
  {
    if Ascending([first] + rest) {
      AscendingRest(first, rest);
    }
    if Ascending(rest) && (rest != [] ==> first <= rest[0]) {
      AscendingMore(first, rest);
    }
  }

  lemma {:induction false} AscendsIffNoLateZero(latest: nat, arrivals: seq<nat>)
    ensures Ascending([latest] + Passed(latest, arrivals)) <==> !LateZero(latest, arrivals)
    decreases |arrivals|
  {
    if arrivals != [] {
      var n := arrivals[0];
      AscendsIffNoLateZero(Latest(latest, n), arrivals[1..]);
      var rest := Passed(Latest(latest, n), arrivals[1..]);
      AscendingFrom(latest, Passed(latest, arrivals));
      if Passes(latest, n) {
        assert Passed(latest, arrivals) == [n] + rest;
      } else {
        assert Passed(latest, arrivals) == [] + rest == rest;
        AscendingFrom(latest, rest);
      }
    }
  }

  /** Over every run in range of a fresh channel, what is passed on never goes back if and only if no packet whose name
      is 0 came in late. */
  lemma PassedInOrderIff(arrivals: seq<nat>)
    requires InRangeRun(0, arrivals)
    ensures Ascending(PassedBy(NewChannel(), arrivals)) <==> !LateZero(0, arrivals)
  {
    PassedByIsPassed(NewChannel(), 0, arrivals);
    AscendsIffNoLateZero(0, arrivals);
    AscendingFrom(0, Passed(0, arrivals));
  }
}

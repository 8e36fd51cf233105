/** What the 33-slot ring says about the absolute (never wrapping) packet numbers
    behind the 16-bit names it is given. */
module ReceiveHistory {
  import opened Numbers
  import opened SerialNumbers
  import opened SequenceBuffer

  const RING_SIZE: nat := 33

  function SlotOf(g: int): nat { Wrap(g) % RING_SIZE }

  /** A receiver's past: `next` is one more than the newest accepted number. */
  datatype History<T> = History(ring: Ring<T>, next: nat, accepted: set<nat>) {
    /** Names are only unambiguous for arrivals in this range; it contains every
        number within 32,000 of the newest. */
    predicate Near(g: nat) {
      next - 32767 - RING_SIZE <= g <= next + 32767 - RING_SIZE
    }

    predicate InWindow(g: int) {
      next - RING_SIZE <= g < next
    }

    predicate Sized() {
      && ring.Valid()
      && |ring.slots| == RING_SIZE
    }

    /** A name the ring holds is that of an accepted number of the current lap, never of an earlier one. */
    ghost predicate Sound() {
      && Sized()
      && ring.num == Wrap(next)
      && (next == 0 || next - 1 in accepted)
      && (forall g :: g in accepted ==> g < next)
      && (forall g :: next - 0x1_0000 <= g < next && ring.Exists(Wrap(g)) ==> 0 <= g && g in accepted)
    }

    /** In the window the ring holds exactly the accepted numbers. */
    ghost predicate Exact()
      requires Sized()
    {
      forall g :: InWindow(g) && 0 <= g ==> (ring.Exists(Wrap(g)) <==> g in accepted)
    }

    /** The history after packet `g` arrives under its 16-bit name. */
    function Arrive(g: nat, entry: T, zero: T): (h: History<T>)
      requires Sized()
      ensures h.Sized()
    {
      var s := Wrap(g);
      History(ring.Insert(s, entry, zero),
              if ring.TooOld(s) then next else Max(next, g + 1),
              if ring.TooOld(s) then accepted else accepted + {g})
    }

    /** Does `g` evict another number that stays in the window? */
    ghost predicate Collides(g: nat) {
      exists other :: other in accepted && other != g
        && Max(next, g + 1) - RING_SIZE <= other
        && SlotOf(other) == SlotOf(g)
    }
  }

  function Start<T>(zero: T): (h: History<T>)
    ensures h.Sized() && h.Sound() && h.Exact()
  {
    History(Empty(RING_SIZE, zero), 0, {})
  }

  /** What the ring holds after an insertion, name by name. */
  lemma ExistsAfterInsert<T>(r: Ring<T>, s: u16, entry: T, zero: T, t: u16)
    requires r.Valid() && !r.TooOld(s)
    ensures
      var span := WrappingSub(s, r.num);
      var passed := SequenceGreaterThan(WrappingAdd(s, 1), r.num)
        && (|r.slots| <= span || WrappingSub(t, r.num) <= span);
      r.Insert(s, entry, zero).Exists(t) <==>
        t == s || (r.Index(t) != r.Index(s) && r.Exists(t) && !passed)
  {
    var a := r.Advance(s, zero);
    var i := r.Index(t);
    assert r.Insert(s, entry, zero).slots == a.slots[r.Index(s) := Some(s)];
    if SequenceGreaterThan(WrappingAdd(s, 1), r.num) {
      var span := WrappingSub(s, r.num);
      if span < |r.slots| {
        assert a.slots[i] == if r.Passed(i, span + 1) then None else r.slots[i];
      } else {
        assert a.slots[i] == None;
      }
    }
  }

  /** For near arrivals the two comparisons of names decide as on the numbers. */
  lemma OldNames(next: nat, g: nat)
    requires next - 32767 - RING_SIZE <= g <= next + 32767 - RING_SIZE
    ensures SequenceLessThan(Wrap(g), WrappingSub(Wrap(next), RING_SIZE)) <==> g < next - RING_SIZE
  {
    WrapHomomorphic(next, RING_SIZE);
    OrderOfNames(next - RING_SIZE, g);
  }

  lemma NewNames(next: nat, g: nat)
    requires next - RING_SIZE <= g <= next + 32767 - RING_SIZE
    ensures SequenceGreaterThan(WrappingAdd(Wrap(g), 1), Wrap(next)) <==> next <= g
  {
    WrapHomomorphic(g, 1);
    OrderOfNames(g + 1, next);
  }

  lemma DistanceOfNames(next: nat, g: int)
    requires next - 0x1_0000 <= g < next + 0x1_0000
    ensures WrappingSub(Wrap(g), Wrap(next)) == if next <= g then g - next else g - next + 0x1_0000
  {
    WrapHomomorphic(g, next);
  }

  lemma NamesDecide<T>(h: History<T>, g: nat)
    requires h.Sized() && h.ring.num == Wrap(h.next) && h.Near(g)
    ensures h.ring.TooOld(Wrap(g)) <==> g < h.next - RING_SIZE
    ensures !h.ring.TooOld(Wrap(g)) ==>
      (SequenceGreaterThan(WrappingAdd(Wrap(g), 1), h.ring.num) <==> h.next <= g)
  {
    OldNames(h.next, g);
    if h.next - RING_SIZE <= g {
      NewNames(h.next, g);
    }
  }

  /** Which numbers of the last lap the ring names once `g` has been accepted. */
  lemma NamedAfter<T>(h: History<T>, g: nat, entry: T, zero: T, f: int)
    requires h.Sized() && h.ring.num == Wrap(h.next) && h.Near(g) && !h.ring.TooOld(Wrap(g))
    requires Max(h.next, g + 1) - 0x1_0000 <= f < Max(h.next, g + 1)
    ensures h.ring.Insert(Wrap(g), entry, zero).Exists(Wrap(f)) <==>
      f == g || (f < h.next && g < h.next + RING_SIZE && SlotOf(f) != SlotOf(g) && h.ring.Exists(Wrap(f)))
  {
    NamesDecide(h, g);
    ExistsAfterInsert(h.ring, Wrap(g), entry, zero, Wrap(f));
    assert h.ring.Index(Wrap(f)) == SlotOf(f) && h.ring.Index(Wrap(g)) == SlotOf(g);
    if Wrap(f) == Wrap(g) {
      WrapInjective(f, g);
    }
    DistanceOfNames(h.next, f);
    if h.next <= g {
      DistanceOfNames(h.next, g);
    }
  }

  lemma NextName<T>(h: History<T>, g: nat, entry: T, zero: T)
    requires h.Sized() && h.ring.num == Wrap(h.next) && h.Near(g)
    ensures h.Arrive(g, entry, zero).next == Max(h.next, g + 1)
    ensures h.Arrive(g, entry, zero).ring.num == Wrap(Max(h.next, g + 1))
  {
    NamesDecide(h, g);
    WrapHomomorphic(g, 1);
  }

  /** A near arrival keeps the ring sound, across any number of wraps: what is
      left over from an earlier lap is gone before its name comes round again. */
  lemma ArrivalKeepsSound<T>(h: History<T>, g: nat, entry: T, zero: T)
    requires h.Sound() && h.Near(g)
    ensures h.Arrive(g, entry, zero).Sound()
    ensures h.Arrive(g, entry, zero).next == Max(h.next, g + 1)
  {
    NextName(h, g, entry, zero);
    var after := h.Arrive(g, entry, zero);
    if !h.ring.TooOld(Wrap(g)) {
      forall f | after.next - 0x1_0000 <= f < after.next && after.ring.Exists(Wrap(f))
        ensures 0 <= f && f in after.accepted
      {
        NamedAfter(h, g, entry, zero, f);
      }
    }
  }

  /** The ring stays exact in its window exactly when the arrival lands in a slot of its own. */
  lemma ArrivalKeepsExactIff<T>(h: History<T>, g: nat, entry: T, zero: T)
    requires h.Sound() && h.Exact() && h.Near(g) && !h.ring.TooOld(Wrap(g))
    ensures h.Arrive(g, entry, zero).Exact() <==> !h.Collides(g)
  {
    NextName(h, g, entry, zero);
    NamesDecide(h, g);
    var after := h.Arrive(g, entry, zero);
    forall f | after.InWindow(f) && 0 <= f
      ensures after.ring.Exists(Wrap(f)) <==>
        f == g || (f in h.accepted && SlotOf(f) != SlotOf(g))
    {
      NamedAfter(h, g, entry, zero, f);
      if f < h.next {
        assert h.InWindow(f);
      }
    }
    if h.Collides(g) {
      var other :| other in h.accepted && other != g && after.next - RING_SIZE <= other && SlotOf(other) == SlotOf(g);
      assert after.InWindow(other);
    }
  }

  /** Within the first lap there is never a collision: 33 consecutive numbers have 33 slots. */
  lemma NoCollisionBeforeWrap<T>(h: History<T>, g: nat)
    requires g < 0x1_0000 && h.next <= 0x1_0000 && h.next - RING_SIZE <= g
    requires forall f :: f in h.accepted ==> f < h.next
    ensures !h.Collides(g)
  {
  }

  lemma ArrivalKeepsExactBeforeWrap<T>(h: History<T>, g: nat, entry: T, zero: T)
    requires h.Sound() && h.Exact() && h.Near(g) && h.next <= 0x1_0000 && g < 0x1_0000
    ensures h.Arrive(g, entry, zero).Exact()
  {
    if !h.ring.TooOld(Wrap(g)) {
      NamesDecide(h, g);
      NoCollisionBeforeWrap(h, g);
      ArrivalKeepsExactIff(h, g, entry, zero);
    }
  }

  /** The arrivals of a run, oldest first, all near the newest of their time. */
  ghost predicate NearRun<T>(h: History<T>, arrivals: seq<nat>, entry: T, zero: T)
    requires h.Sized()
    decreases |arrivals|
  {
    arrivals == []
    || (h.Near(arrivals[0]) && NearRun(h.Arrive(arrivals[0], entry, zero), arrivals[1..], entry, zero))
  }

  function Replay<T>(h: History<T>, arrivals: seq<nat>, entry: T, zero: T): (r: History<T>)
    requires h.Sized()
    ensures r.Sized()
    decreases |arrivals|
  {
    if arrivals == [] then h else Replay(h.Arrive(arrivals[0], entry, zero), arrivals[1..], entry, zero)
  }

  lemma {:induction false} RunKeepsSound<T>(h: History<T>, arrivals: seq<nat>, entry: T, zero: T)
    requires h.Sound() && NearRun(h, arrivals, entry, zero)
    ensures Replay(h, arrivals, entry, zero).Sound()
    ensures Replay(h, arrivals, entry, zero).accepted <= h.accepted + set g | g in arrivals
    decreases |arrivals|
  {
    if arrivals != [] {
      ArrivalKeepsSound(h, arrivals[0], entry, zero);
      RunKeepsSound(h.Arrive(arrivals[0], entry, zero), arrivals[1..], entry, zero);
    }
  }

  /** In a run with no wrap the ring is exactly the set of accepted numbers in its window. */
  lemma {:induction false} RunKeepsExactBeforeWrap<T>(h: History<T>, arrivals: seq<nat>, entry: T, zero: T)
    requires h.Sound() && h.Exact() && NearRun(h, arrivals, entry, zero)
    requires h.next <= 0x1_0000 && forall i :: 0 <= i < |arrivals| ==> arrivals[i] < 0x1_0000
    ensures Replay(h, arrivals, entry, zero).Exact()
    decreases |arrivals|
  {
    if arrivals != [] {
      ArrivalKeepsSound(h, arrivals[0], entry, zero);
      ArrivalKeepsExactBeforeWrap(h, arrivals[0], entry, zero);
      RunKeepsExactBeforeWrap(h.Arrive(arrivals[0], entry, zero), arrivals[1..], entry, zero);
    }
  }

  /** Across the wrap exactness is lost: 65505 and 65536 are 31 apart but share slot 0. */
  lemma ExactnessFailsAcrossWrap<T>(entry: T, zero: T)
    ensures
      var run := [32000, 64000, 65505, 65536];
      var h := Replay(Start(zero), run, entry, zero);
      NearRun(Start(zero), run, entry, zero) && h.InWindow(65505) && 65505 in h.accepted && !h.ring.Exists(Wrap(65505))
  {
    var h0 := Start(zero);
    var h1 := h0.Arrive(32000, entry, zero);
    var h2 := h1.Arrive(64000, entry, zero);
    var h3 := h2.Arrive(65505, entry, zero);
    var h4 := h3.Arrive(65536, entry, zero);
    NamesDecide(h0, 32000);
    NamesDecide(h1, 64000);
    NamesDecide(h2, 65505);
    NamesDecide(h3, 65536);
    ExistsAfterInsert(h3.ring, Wrap(65536), entry, zero, Wrap(65505));
    assert [32000, 64000, 65505, 65536][1..] == [64000, 65505, 65536];
    assert [64000, 65505, 65536][1..] == [65505, 65536];
    assert [65505, 65536][1..] == [65536];
    assert [65536][1..] == [];
  }
}

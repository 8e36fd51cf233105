/** The 1024-bit window refines the plain set of absolute group numbers delivered so far. */
module UnsequencedHistory {
  import opened Numbers
  import opened Bits
  import opened Unsequenced

  /** `base` is the absolute number behind the window's base; `newest` is the highest delivered number, or -1. */
  datatype Receiver = Receiver(window: Window, base: nat, newest: int, delivered: set<nat>) {
    /** The 16-bit name of `g` tells the window where `g` is. */
    predicate InRange(g: nat) { base - 32768 < g <= base + 32768 }

    ghost predicate Valid() {
      && window.Valid()
      && window.base == Wrap(base)
      && (forall k: nat :: k < BITS ==> (BitAt(window.words, k) <==> base + k in delivered))
      && (forall g :: g in delivered ==> g <= newest)
      && newest < base + BITS
      && (if delivered == {} then newest == -1 && base == 0 else 0 <= newest && newest in delivered && base <= newest)
      && base <= Max(0, newest - 512)
    }

    /** The arm of `process_command` for unsequenced packets: is the packet handed up? */
    predicate Delivers(g: nat)
      requires window.Valid()
    {
      !window.IsDuplicate(Wrap(g))
    }

    function Arrive(g: nat): (r: Receiver)
      requires window.Valid()
      ensures r.window.Valid()
    {
      if !Delivers(g) then this
      else Receiver(window.MarkReceived(Wrap(g)),
                    if base + BITS <= g then g - 512 else base, Max(newest, g), delivered + {g})
    }
  }

  function Start(): Receiver { Receiver(Fresh(), 0, -1, {}) }

  lemma StartIsValid()
    ensures Start().Valid()
  {
  }

  lemma OffsetOfName(base: nat, g: nat)
    requires base - 32768 < g <= base + 32768
    ensures WrappingSub(Wrap(g), Wrap(base)) == if base <= g then g - base else g - base + 0x1_0000
  {
    WrapHomomorphic(g, base);
    WrapWholeLaps(g - base, 1);
  }

  lemma EmptyWindowHasNoBits(w: Window)
    requires w.Valid()
    ensures w.Empty() <==> forall k: nat :: k < BITS ==> !BitAt(w.words, k)
  {
    if !w.Empty() {
      var i :| 0 <= i < WORDS && w.words[i] != Zero();
      var j :| 0 <= j < 32 && w.words[i][j];
      assert (32 * i + j) / 32 == i && (32 * i + j) % 32 == j;
      assert BitAt(w.words, 32 * i + j);
    }
  }

  /** In range, a group is taken for a duplicate exactly when it was delivered or lies behind the window. */
  lemma DuplicateIff(r: Receiver, g: nat)
    requires r.Valid() && r.InRange(g)
    ensures r.window.IsDuplicate(Wrap(g)) <==> g in r.delivered || g < r.base
  {
    OffsetOfName(r.base, g);
    EmptyWindowHasNoBits(r.window);
    if r.delivered != {} {
      assert BitAt(r.window.words, r.newest - r.base);
    }
  }

  lemma AdvancedBit(w: Window, group: u16, k: nat)
    requires w.Valid() && k < BITS && WrappingSub(group, w.base) <= 32768
    ensures
      var offset := WrappingSub(group, w.base);
      var advance := if BITS <= offset then offset - 512 else 0;
      && w.Advance(group).base == Wrap(w.base + advance)
      && BitAt(w.Advance(group).words, k) == (k + advance < BITS && BitAt(w.words, k + advance))
  {
    var offset := WrappingSub(group, w.base);
    if BITS <= offset {
      SlideBit(w.words, offset - 512, k);
    }
  }

  /** The window's bits after a group not behind the base is marked. */
  lemma MarkedBit(w: Window, group: u16, k: nat)
    requires w.Valid() && k < BITS && WrappingSub(group, w.base) <= 32768
    ensures
      var offset := WrappingSub(group, w.base);
      var advance := if BITS <= offset then offset - 512 else 0;
      && w.MarkReceived(group).base == WrappingAdd(w.base, advance)
      && (BitAt(w.MarkReceived(group).words, k) <==>
            k == offset - advance || (k + advance < BITS && BitAt(w.words, k + advance)))
  {
    var offset := WrappingSub(group, w.base);
    var advance := if BITS <= offset then offset - 512 else 0;
    AdvancedBit(w, group, k);
    MovedOffset(group, w.base, advance);
    SetBit(w.Advance(group).words, offset - advance, k);
  }

  lemma MovedOffset(group: u16, base: u16, advance: nat)
    requires advance <= WrappingSub(group, base)
    ensures WrappingSub(group, Wrap(base + advance)) == WrappingSub(group, base) - advance
  {
    WrapMinus(group, base + advance);
    assert 0 <= (group - base) % 0x1_0000 - advance < 0x1_0000;
  }

  lemma SetBit(words: seq<Word>, offset: nat, k: nat)
    requires |words| == WORDS && offset < BITS && k < BITS
    ensures BitAt(words[offset / 32 := Or(words[offset / 32], Shl(One(), offset % 32))], k)
      <==> k == offset || BitAt(words, k)
  {
    assert k == 32 * (k / 32) + k % 32 && offset == 32 * (offset / 32) + offset % 32;
  }

  lemma ArrivalMarks(r: Receiver, g: nat, k: nat)
    requires r.Valid() && r.InRange(g) && r.base <= g && k < BITS
    ensures
      var s := Receiver(r.window.MarkReceived(Wrap(g)), if r.base + BITS <= g then g - 512 else r.base,
                        Max(r.newest, g), r.delivered + {g});
      && s.window.base == Wrap(s.base)
      && (BitAt(s.window.words, k) <==> s.base + k in s.delivered)
  {
    OffsetOfName(r.base, g);
    MarkedBit(r.window, Wrap(g), k);
    WrapPlus(r.base, if r.base + BITS <= g then g - 512 - r.base else 0);
  }

  /** An arrival in range keeps the window equal to the set, across any number of wraps. */
  lemma ArrivalKeepsValid(r: Receiver, g: nat)
    requires r.Valid() && r.InRange(g)
    ensures r.Arrive(g).Valid()
    ensures r.newest <= r.Arrive(g).newest && r.delivered <= r.Arrive(g).delivered
  {
    DuplicateIff(r, g);
    if r.Delivers(g) {
      ArrivalMarks(r, g, 0);
      forall k: nat | k < BITS
        ensures BitAt(r.Arrive(g).window.words, k) <==> r.Arrive(g).base + k in r.Arrive(g).delivered
      {
        ArrivalMarks(r, g, k);
      }
    }
  }

  // ----- runs -----

  function Replay(r: Receiver, arrivals: seq<nat>): (s: Receiver)
    requires r.window.Valid()
    ensures s.window.Valid()
    decreases |arrivals|
  {
    if arrivals == [] then r else Replay(r.Arrive(arrivals[0]), arrivals[1..])
  }

  /** The groups handed up, in order. */
  function HandedUp(r: Receiver, arrivals: seq<nat>): seq<nat>
    requires r.window.Valid()
    decreases |arrivals|
  {
    if arrivals == [] then []
    else (if r.Delivers(arrivals[0]) then [arrivals[0]] else []) + HandedUp(r.Arrive(arrivals[0]), arrivals[1..])
  }

  ghost predicate InRangeRun(r: Receiver, arrivals: seq<nat>)
    requires r.window.Valid()
    decreases |arrivals|
  {
    arrivals == []
    || (r.InRange(arrivals[0]) && InRangeRun(r.Arrive(arrivals[0]), arrivals[1..]))
  }

  lemma {:induction false} RunKeepsValid(r: Receiver, arrivals: seq<nat>)
    requires r.Valid() && InRangeRun(r, arrivals)
    ensures Replay(r, arrivals).Valid()
    decreases |arrivals|
  {
    if arrivals != [] {
      ArrivalKeepsValid(r, arrivals[0]);
      RunKeepsValid(r.Arrive(arrivals[0]), arrivals[1..]);
    }
  }

  /** `out` holds different groups, each of which arrived and was not delivered before. */
  ghost predicate Once(out: seq<nat>, before: set<nat>, arrivals: seq<nat>) {
    && (forall i :: 0 <= i < |out| ==> out[i] !in before && out[i] in arrivals)
    && (forall i, j :: 0 <= i < j < |out| ==> out[i] != out[j])
  }

  lemma PrependOnce(rest: seq<nat>, before: set<nat>, arrivals: seq<nat>)
    requires arrivals != []
    ensures Once(rest, before, arrivals[1..]) ==> Once(rest, before, arrivals)
    ensures Once(rest, before + {arrivals[0]}, arrivals[1..]) && arrivals[0] !in before
      ==> Once([arrivals[0]] + rest, before, arrivals)
  {
    assert forall n :: n in arrivals[1..] ==> n in arrivals;
  }

  /** No group is handed up twice, and none that was delivered before the run. */
  lemma {:induction false} HandedUpOnce(r: Receiver, arrivals: seq<nat>)
    requires r.Valid() && InRangeRun(r, arrivals)
    ensures Once(HandedUp(r, arrivals), r.delivered, arrivals)
    decreases |arrivals|
  {
    if arrivals != [] {
      DuplicateIff(r, arrivals[0]);
      ArrivalKeepsValid(r, arrivals[0]);
      var rest := HandedUp(r.Arrive(arrivals[0]), arrivals[1..]);
      HandedUpOnce(r.Arrive(arrivals[0]), arrivals[1..]);
      PrependOnce(rest, r.delivered, arrivals);
      assert [] + rest == rest;
    }
  }

  /** A first arrival at most 512 behind the highest delivered group is handed up. */
  lemma FirstArrivalIsHandedUp(r: Receiver, g: nat)
    requires r.Valid() && r.InRange(g) && g !in r.delivered && r.newest - 512 <= g
    ensures r.Delivers(g)
  {
    DuplicateIff(r, g);
  }

  /** ... in every state of every run in range. */
  lemma NoTimelyPacketIsRefused(arrivals: seq<nat>, g: nat)
    requires InRangeRun(Start(), arrivals)
    requires
      var r := Replay(Start(), arrivals);
      r.InRange(g) && g !in r.delivered && r.newest - 512 <= g
    ensures Replay(Start(), arrivals).Delivers(g)
  {
    StartIsValid();
    RunKeepsValid(Start(), arrivals);
    FirstArrivalIsHandedUp(Replay(Start(), arrivals), g);
  }

  // ----- out of range -----

  /** A fresh window records a first group exactly when it is at most 32768; any later group
      leaves the window empty and so is handed up again every time it is repeated. */
  lemma FreshWindowRecordsIff(group: u16)
    ensures !Fresh().IsDuplicate(group)
    ensures Fresh().MarkReceived(group).IsDuplicate(group) <==> group <= 32768
  {
    var w := Fresh();
    var m := w.MarkReceived(group);
    assert w.Empty();
    assert WrappingSub(group, w.base) == group;
    if group <= 32768 {
      var advance := if BITS <= group then group - 512 else 0;
      MarkedBit(w, group, group - advance);
      MovedOffset(group, 0, advance);
      EmptyWindowHasNoBits(m);
    } else {
      assert w.Advance(group) == w;
      assert m == w;
    }
  }
}

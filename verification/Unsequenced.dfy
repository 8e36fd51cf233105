/** Duplicate detection for unsequenced packets: a 1024-bit window over 16-bit group numbers. */
module Unsequenced {
  import opened Numbers
  import opened Bits

  const WORDS: nat := 32
  const BITS: nat := 1024

  /** Bit `k` of a window. */
  predicate BitAt(words: seq<Word>, k: nat)
    requires |words| == WORDS && k < BITS
  {
    words[k / 32][k % 32]
  }

  /** Bit `k` of the window moved `advance` places towards its base; what falls off is forgotten. */
  predicate SlidBit(words: seq<Word>, advance: nat, k: nat)
    requires |words| == WORDS
  {
    k + advance < BITS && BitAt(words, k + advance)
  }

  function Slide(words: seq<Word>, advance: nat): (slid: seq<Word>)
    requires |words| == WORDS
    ensures |slid| == WORDS
  {
    seq<Word>(WORDS, i requires 0 <= i < WORDS => SlidWord(words, advance, i))
  }

  function SlidWord(words: seq<Word>, advance: nat, i: nat): Word
    requires |words| == WORDS && i < WORDS
  {
    seq(32, j requires 0 <= j < 32 => SlidBit(words, advance, 32 * i + j))
  }

  /** Whole words moved towards the base. */
  function MoveWords(words: seq<Word>, shift: nat): (moved: seq<Word>)
    requires |words| == WORDS
    ensures |moved| == WORDS
  {
    seq<Word>(WORDS, i requires 0 <= i < WORDS => WordOr0(words, i + shift))
  }

  function WordOr0(words: seq<Word>, i: nat): Word
    requires |words| == WORDS
  {
    if i < WORDS then words[i] else Zero()
  }

  /** Word `i` moved fewer than 32 places towards the base, with the bits that come in from the next word. */
  function BorrowBits(words: seq<Word>, i: nat, shift: nat): Word
    requires |words| == WORDS && i < WORDS && 0 < shift < 32
  {
    if i < 31 then Or(Shr(words[i], shift), Shl(words[i + 1], 32 - shift)) else Shr(words[i], shift)
  }

  function MoveBits(words: seq<Word>, shift: nat): (moved: seq<Word>)
    requires |words| == WORDS && 0 < shift < 32
    ensures |moved| == WORDS
  {
    seq<Word>(WORDS, i requires 0 <= i < WORDS => BorrowBits(words, i, shift))
  }

  lemma SlideBit(words: seq<Word>, advance: nat, k: nat)
    requires |words| == WORDS && k < BITS
    ensures BitAt(Slide(words, advance), k) == SlidBit(words, advance, k)
  {
    assert 32 * (k / 32) + k % 32 == k;
  }

  lemma MoveWordsBit(words: seq<Word>, shift: nat, k: nat)
    requires |words| == WORDS && k < BITS
    ensures BitAt(MoveWords(words, shift), k) == SlidBit(words, 32 * shift, k)
  {
    assert (k + 32 * shift) / 32 == k / 32 + shift && (k + 32 * shift) % 32 == k % 32;
    assert k + 32 * shift < BITS <==> k / 32 + shift < WORDS;
    assert BitAt(MoveWords(words, shift), k) == WordOr0(words, k / 32 + shift)[k % 32];
  }

  lemma BorrowedBit(words: seq<Word>, i: nat, shift: nat, j: nat)
    requires |words| == WORDS && i < WORDS && 0 < shift < 32 && j < 32
    ensures BorrowBits(words, i, shift)[j] ==
      if j + shift < 32 then words[i][j + shift] else i < 31 && words[i + 1][j + shift - 32]
  {
    assert Shr(words[i], shift)[j] == (j + shift < 32 && words[i][j + shift]);
    if i < 31 {
      assert Shl(words[i + 1], 32 - shift)[j] == (32 - shift <= j && words[i + 1][j - (32 - shift)]);
    }
  }

  lemma MoveBitsBit(words: seq<Word>, shift: nat, k: nat)
    requires |words| == WORDS && 0 < shift < 32 && k < BITS
    ensures BitAt(MoveBits(words, shift), k) == SlidBit(words, shift, k)
  {
    BorrowedBit(words, k / 32, shift, k % 32);
    if k % 32 + shift < 32 {
      assert (k + shift) / 32 == k / 32 && (k + shift) % 32 == k % 32 + shift;
    } else {
      assert (k + shift) / 32 == k / 32 + 1 && (k + shift) % 32 == k % 32 + shift - 32;
    }
  }

  lemma SameWindow(a: seq<Word>, b: seq<Word>)
    requires |a| == |b| == WORDS
    requires forall k: nat :: k < BITS ==> BitAt(a, k) == BitAt(b, k)
    ensures a == b
  {
    forall i | 0 <= i < WORDS ensures a[i] == b[i] {
      forall j | 0 <= j < 32 ensures a[i][j] == b[i][j] {
        assert (32 * i + j) / 32 == i && (32 * i + j) % 32 == j;
        assert BitAt(a, 32 * i + j) == BitAt(b, 32 * i + j);
      }
    }
  }

  /** Moving whole words is a slide. */
  lemma MoveWordsSlides(words: seq<Word>, shift: nat)
    requires |words| == WORDS
    ensures MoveWords(words, shift) == Slide(words, 32 * shift)
  {
    forall k: nat | k < BITS ensures BitAt(MoveWords(words, shift), k) == BitAt(Slide(words, 32 * shift), k) {
      MoveWordsBit(words, shift, k);
      SlideBit(words, 32 * shift, k);
    }
    SameWindow(MoveWords(words, shift), Slide(words, 32 * shift));
  }

  /** Moving bits across word boundaries is a slide. */
  lemma MoveBitsSlides(words: seq<Word>, shift: nat)
    requires |words| == WORDS && 0 < shift < 32
    ensures MoveBits(words, shift) == Slide(words, shift)
  {
    forall k: nat | k < BITS ensures BitAt(MoveBits(words, shift), k) == BitAt(Slide(words, shift), k) {
      MoveBitsBit(words, shift, k);
      SlideBit(words, shift, k);
    }
    SameWindow(MoveBits(words, shift), Slide(words, shift));
  }

  lemma SlidesCompose(words: seq<Word>, a: nat, b: nat)
    requires |words| == WORDS
    ensures Slide(Slide(words, a), b) == Slide(words, a + b)
  {
    forall k: nat | k < BITS ensures BitAt(Slide(Slide(words, a), b), k) == BitAt(Slide(words, a + b), k) {
      SlideBit(Slide(words, a), b, k);
      SlideBit(words, a + b, k);
      if k + b < BITS {
        SlideBit(words, a, k + b);
      }
    }
    SameWindow(Slide(Slide(words, a), b), Slide(words, a + b));
  }

  lemma SlideAway(words: seq<Word>, a: nat, b: nat)
    requires |words| == WORDS && BITS <= a && BITS <= b
    ensures Slide(words, a) == Slide(words, b)
  {
    forall k: nat | k < BITS ensures BitAt(Slide(words, a), k) == BitAt(Slide(words, b), k) {
      SlideBit(words, a, k);
      SlideBit(words, b, k);
    }
    SameWindow(Slide(words, a), Slide(words, b));
  }

  /** The in-place steps, words first and then bits unless everything is gone already, are one slide. */
  lemma StepsSlide(words: seq<Word>, wordShift: nat, bitShift: nat)
    requires |words| == WORDS && bitShift < 32
    ensures
      var moved := if wordShift > 0 then MoveWords(words, wordShift) else words;
      Slide(words, 32 * wordShift + bitShift) ==
        if bitShift > 0 && wordShift < WORDS then MoveBits(moved, bitShift) else moved
  {
    var moved := if wordShift > 0 then MoveWords(words, wordShift) else words;
    assert moved == Slide(words, 32 * wordShift) by {
      MoveWordsSlides(words, wordShift);
      assert MoveWords(words, 0) == words;
    }
    if wordShift >= WORDS {
      SlideAway(words, 32 * wordShift, 32 * wordShift + bitShift);
    } else if bitShift > 0 {
      MoveBitsSlides(moved, bitShift);
      SlidesCompose(words, 32 * wordShift, bitShift);
    }
  }

  /** The contents of an `UnsequencedState`. */
  datatype Window = Window(base: u16, words: seq<Word>, outgoing: u16) {
    predicate Valid() { |words| == WORDS }

    predicate Empty() { forall i :: 0 <= i < |words| ==> words[i] == Zero() }

    predicate IsDuplicate(group: u16)
      requires Valid()
    {
      var offset := WrappingSub(group, base);
      !Empty() && if offset < BITS then BitAt(words, offset) else offset > 32768
    }

    /** Far ahead, the window is moved so that `group` lands in its middle. */
    function Advance(group: u16): (w: Window)
      requires Valid()
      ensures w.Valid()
    {
      var offset := WrappingSub(group, base);
      if BITS <= offset <= 32768
      then this.(base := WrappingAdd(base, offset - 512), words := Slide(words, offset - 512))
      else this
    }

    function MarkReceived(group: u16): (w: Window)
      requires Valid()
      ensures w.Valid()
    {
      var a := Advance(group);
      var offset := WrappingSub(group, a.base);
      if offset < BITS
      then a.(words := a.words[offset / 32 := Or(a.words[offset / 32], Shl(One(), offset % 32))])
      else a
    }
  }

  function Fresh(): (w: Window)
    ensures w.Valid()
  {
    Window(0, seq(WORDS, _ => Zero()), 0)
  }

  class UnsequencedState {
    var incomingUnsequencedGroup: u16
    const unsequencedWindow: array<Word>
    var outgoingUnsequencedGroup: u16

    ghost function State(): Window
      reads this, unsequencedWindow
    {
      Window(incomingUnsequencedGroup, unsequencedWindow[..], outgoingUnsequencedGroup)
    }

    ghost predicate Valid()
      reads this, unsequencedWindow
    {
      State().Valid()
    }

    constructor ()
      ensures Valid() && State() == Fresh() && fresh(unsequencedWindow)
    {
      incomingUnsequencedGroup, outgoingUnsequencedGroup := 0, 0;
      unsequencedWindow := new Word[WORDS](_ => Zero());
    }

    method NextOutgoingGroup() returns (group: u16)
      modifies this`outgoingUnsequencedGroup
      ensures group == old(outgoingUnsequencedGroup)
      ensures State() == old(State()).(outgoing := WrappingAdd(group, 1))
    {
      group := outgoingUnsequencedGroup;
      outgoingUnsequencedGroup := WrappingAdd(outgoingUnsequencedGroup, 1);
    }

    method IsEmpty() returns (empty: bool)
      requires Valid()
      ensures empty == State().Empty()
    {
      for i := 0 to unsequencedWindow.Length
        invariant forall j :: 0 <= j < i ==> unsequencedWindow[j] == Zero()
      {
        if unsequencedWindow[i] != Zero() {
          assert State().words[i] != Zero();
          return false;
        }
      }
      empty := true;
    }

    method IsDuplicate(group: u16) returns (duplicate: bool)
      requires Valid()
      ensures duplicate == State().IsDuplicate(group)
    {
      var windowEmpty := IsEmpty();
      if windowEmpty {
        return false;
      }
      var offset := WrappingSub(group, incomingUnsequencedGroup);
      if offset < BITS {
        var wordIndex, bitIndex := offset / 32, offset % 32;
        TestBit(unsequencedWindow[wordIndex], bitIndex);
        return And(unsequencedWindow[wordIndex], Shl(One(), bitIndex)) != Zero();
      }
      duplicate := offset > 32768;
    }

    /** Shifts whole words towards the base, in place. */
    method ShiftWords(wordShift: nat)
      requires Valid() && 0 < wordShift
      modifies unsequencedWindow
      ensures unsequencedWindow[..] == MoveWords(old(unsequencedWindow[..]), wordShift)
    {
      ghost var was := unsequencedWindow[..];
      if wordShift >= WORDS {
        for i := 0 to WORDS
          invariant forall j :: 0 <= j < i ==> unsequencedWindow[j] == WordOr0(was, j + wordShift)
        {
          unsequencedWindow[i] := Zero();
        }
      } else {
        for i := 0 to WORDS - wordShift
          invariant forall j :: 0 <= j < i ==> unsequencedWindow[j] == WordOr0(was, j + wordShift)
          invariant forall j :: i <= j < WORDS ==> unsequencedWindow[j] == was[j]
        {
          unsequencedWindow[i] := unsequencedWindow[i + wordShift];
        }
        for i := WORDS - wordShift to WORDS
          invariant forall j :: 0 <= j < i ==> unsequencedWindow[j] == WordOr0(was, j + wordShift)
        {
          unsequencedWindow[i] := Zero();
        }
      }
      assert unsequencedWindow[..] == MoveWords(was, wordShift);
    }

    /** Shifts bits towards the base across word boundaries, in place. */
    method ShiftBits(bitShift: nat)
      requires Valid() && 0 < bitShift < 32
      modifies unsequencedWindow
      ensures unsequencedWindow[..] == MoveBits(old(unsequencedWindow[..]), bitShift)
    {
      ghost var goal := MoveBits(unsequencedWindow[..], bitShift);
      for i := 0 to 31
        invariant forall j :: 0 <= j < i ==> unsequencedWindow[j] == goal[j]
        invariant forall j :: i <= j < WORDS ==> unsequencedWindow[j] == old(unsequencedWindow[j])
      {
        assert goal[i] == BorrowBits(old(unsequencedWindow[..]), i, bitShift);
        unsequencedWindow[i] := Or(Shr(unsequencedWindow[i], bitShift), Shl(unsequencedWindow[i + 1], 32 - bitShift));
      }
      assert goal[31] == BorrowBits(old(unsequencedWindow[..]), 31, bitShift);
      unsequencedWindow[31] := Shr(unsequencedWindow[31], bitShift);
    }

    method SlideWindow(advance: nat)
      requires Valid()
      modifies unsequencedWindow
      ensures unsequencedWindow[..] == Slide(old(unsequencedWindow[..]), advance)
    {
      var wordShift, bitShift := advance / 32, advance % 32;
      StepsSlide(unsequencedWindow[..], wordShift, bitShift);
      if wordShift > 0 {
        ShiftWords(wordShift);
      }
      if bitShift > 0 && wordShift < WORDS {
        ShiftBits(bitShift);
      }
    }

    /** Moves the base so that a group far ahead lands in the middle of the window. */
    method Advance(group: u16)
      requires Valid()
      modifies this, unsequencedWindow
      ensures Valid()
      ensures State() == old(State()).Advance(group)
    {
      var offset := WrappingSub(group, incomingUnsequencedGroup);
      if BITS <= offset <= 32768 {
        var advance := SaturatingSub(offset, 512);
        SlideWindow(advance);
        incomingUnsequencedGroup := WrappingAdd(incomingUnsequencedGroup, advance);
      }
    }

    method MarkReceived(group: u16)
      requires Valid()
      modifies this, unsequencedWindow
      ensures Valid()
      ensures State() == old(State()).MarkReceived(group)
    {
      Advance(group);
      ghost var advanced := State();
      var finalOffset := WrappingSub(group, incomingUnsequencedGroup);
      if finalOffset < BITS {
        var wordIndex, bitIndex := finalOffset / 32, finalOffset % 32;
        unsequencedWindow[wordIndex] := Or(unsequencedWindow[wordIndex], Shl(One(), bitIndex));
        assert unsequencedWindow[..]
          == advanced.words[wordIndex := Or(advanced.words[wordIndex], Shl(One(), bitIndex))];
      }
    }
  }
}

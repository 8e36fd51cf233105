/** Comparison of 16-bit sequence numbers that wrap (RFC 1982, section 3.2). */
module SerialNumbers {
  import opened Numbers

  predicate SequenceGreaterThan(s1: u16, s2: u16) {
    (s1 > s2 && s1 - s2 <= 32768) || (s1 < s2 && s2 - s1 > 32768)
  }

  predicate SequenceLessThan(s1: u16, s2: u16) { SequenceGreaterThan(s2, s1) }

  /** The comparison reads only the wrapped distance, except at distance exactly
      32768, where the numerically larger number counts as the later one. */
  lemma GreaterByDistance(s1: u16, s2: u16)
    ensures SequenceGreaterThan(s1, s2) <==>
      0 < WrappingSub(s1, s2) < 32768 || (WrappingSub(s1, s2) == 32768 && s2 < s1)
  {
  }

  /** RFC 1982 leaves distance 32768 undefined; here every two numbers are ordered exactly one way. */
  lemma Trichotomy(s1: u16, s2: u16)
    ensures s1 == s2 <==> !SequenceGreaterThan(s1, s2) && !SequenceLessThan(s1, s2)
    ensures !(SequenceGreaterThan(s1, s2) && SequenceLessThan(s1, s2))
  {
  }

  /** On absolute numbers at most half a lap apart, the names are ordered as the
      numbers are, except for one of the two directions at distance exactly 32768. */
  lemma OrderOfNames(a: int, b: int)
    requires -32768 <= a - b <= 32768
    ensures -32768 < a - b < 32768 ==> (SequenceGreaterThan(Wrap(a), Wrap(b)) <==> a > b)
    ensures a - b == 32768 ==> (SequenceGreaterThan(Wrap(a), Wrap(b)) <==> 32768 <= Wrap(a))
    ensures b - a == 32768 ==> (SequenceGreaterThan(Wrap(a), Wrap(b)) <==> 32768 <= Wrap(a))
  {
  }

  /** Exactly when the names are ordered as the numbers: never at a whole lap or
      more, always below half a lap. */
  lemma OrderOfNamesIsExact(a: int, b: int)
    requires 0 < a - b <= 0x1_0000
    ensures SequenceGreaterThan(Wrap(a), Wrap(b)) <==> a - b < 32768 || (a - b == 32768 && 32768 <= Wrap(a))
  {
  }
}

/** Fixed-width unsigned integers, the wrapping and saturating operators the
    protocol relies on, and the Option and Result types used for Rust's. */
module Numbers {
  type byte = x: int | 0 <= x < 0x100
  type u16 = x: int | 0 <= x < 0x1_0000
  type u32 = x: int | 0 <= x < 0x1_0000_0000

  type bytes = seq<byte>

  datatype Option<+T> = None | Some(value: T)

  /** `io::Result` and the crate's own `Result`: only the fact of the error is kept. */
  datatype Result<+T> = Ok(value: T) | Err {
    predicate IsFailure() { Err? }

    function PropagateFailure<U>(): Result<U>
      requires Err?
    {
      Err
    }

    function Extract(): T
      requires Ok?
    {
      value
    }
  }

  /** The 16-bit name of an absolute (unbounded) number. */
  function Wrap(n: int): u16 { n % 0x1_0000 }

  function WrappingAdd(a: u16, b: u16): u16 { Wrap(a + b) }

  function WrappingSub(a: u16, b: u16): u16 { Wrap(a - b) }

  function SaturatingSub(a: nat, b: nat): nat { if a < b then 0 else a - b }

  function Min(a: int, b: int): int { if a <= b then a else b }

  function Max(a: int, b: int): int { if a <= b then b else a }

  /** Two absolute numbers less than one lap apart have the same name only if they are equal. */
  lemma WrapInjective(a: int, b: int)
    requires Wrap(a) == Wrap(b)
    requires -0x1_0000 < a - b < 0x1_0000
    ensures a == b
  {
  }

  lemma WrapWholeLaps(n: int, laps: int)
    ensures Wrap(n + 0x1_0000 * laps) == Wrap(n)
  {
  }

  /** Wrapping arithmetic on names follows unbounded arithmetic on the numbers named. */
  lemma WrapPlus(a: int, b: int)
    ensures Wrap(Wrap(a) + b) == Wrap(a + b)
  {
    WrapWholeLaps(Wrap(a) + b, a / 0x1_0000);
  }

  lemma WrapMinus(a: int, b: int)
    ensures Wrap(a - Wrap(b)) == Wrap(a - b)
  {
    WrapWholeLaps(a - Wrap(b), -(b / 0x1_0000));
  }

  lemma WrapHomomorphic(a: int, b: int)
    ensures Wrap(Wrap(a) + Wrap(b)) == Wrap(a + b)
    ensures Wrap(Wrap(a) - Wrap(b)) == Wrap(a - b)
    ensures Wrap(Wrap(a) + b) == Wrap(a + b)
    ensures Wrap(Wrap(a) - b) == Wrap(a - b)
    ensures Wrap(a - Wrap(b)) == Wrap(a - b)
  {
    WrapPlus(a, Wrap(b));
    WrapPlus(b, a);
    WrapPlus(a, b);
    WrapPlus(a, -b);
    var nameOfB: int := Wrap(b);
    WrapPlus(a, -nameOfB);
    WrapMinus(a, b);
  }
}

/** Big-endian fields: the functions that lay them out and read them back, and the
    growing buffer and the cursor that the source writes and reads them with. */
module Wire {
  import opened Numbers

  function Be16(v: u16): bytes { [v / 0x100, v % 0x100] }

  function Be32(v: u32): bytes { Be16(v / 0x1_0000) + Be16(v % 0x1_0000) }

  /** `v as u16` */
  function Low16(v: nat): u16 { v % 0x1_0000 }

  /** A payload behind its length, which is cut to 16 bits. */
  function Sized(data: bytes): bytes { Be16(Low16(|data|)) + data }

  function FromBe16(s: bytes): u16
    requires 2 <= |s|
  {
    var high: int, low: int := s[0], s[1];
    0x100 * high + low
  }

  function FromBe32(s: bytes): u32
    requires 4 <= |s|
  {
    var high: int, low: int := FromBe16(s), FromBe16(s[2..]);
    0x1_0000 * high + low
  }

  // Each reader returns the value and what is left, or fails when there are too few bytes.

  function GetU8(s: bytes): Result<(byte, bytes)> {
    if |s| < 1 then Err else Ok((s[0], s[1..]))
  }

  function GetU16(s: bytes): Result<(u16, bytes)> {
    if |s| < 2 then Err else Ok((FromBe16(s), s[2..]))
  }

  function GetU32(s: bytes): Result<(u32, bytes)> {
    if |s| < 4 then Err else Ok((FromBe32(s), s[4..]))
  }

  function GetBytes(s: bytes, n: nat): Result<(bytes, bytes)> {
    if |s| < n then Err else Ok((s[..n], s[n..]))
  }

  function GetSized(s: bytes): Result<(bytes, bytes)> {
    var (n, rest) :- GetU16(s);
    GetBytes(rest, n)
  }

  lemma GetPutU8(v: byte, rest: bytes)
    ensures GetU8([v] + rest) == Ok((v, rest))
  {
  }

  lemma GetPutU16(v: u16, rest: bytes)
    ensures GetU16(Be16(v) + rest) == Ok((v, rest))
  {
    assert (Be16(v) + rest)[2..] == rest;
  }

  lemma GetPutU32(v: u32, rest: bytes)
    ensures GetU32(Be32(v) + rest) == Ok((v, rest))
  {
    var s := Be32(v) + rest;
    assert s[4..] == rest;
    assert s == Be16(v / 0x1_0000) + (Be16(v % 0x1_0000) + rest);
    GetPutU16(v / 0x1_0000, Be16(v % 0x1_0000) + rest);
    GetPutU16(v % 0x1_0000, rest);
  }

  /** A payload is read back exactly when its length fits in 16 bits. */
  lemma GetPutSized(data: bytes, rest: bytes)
    requires |data| < 0x1_0000
    ensures GetSized(Sized(data) + rest) == Ok((data, rest))
  {
    assert Sized(data) + rest == Be16(|data|) + (data + rest);
    GetPutU16(|data|, data + rest);
    assert (data + rest)[..|data|] == data && (data + rest)[|data|..] == rest;
  }

  /** `Vec<u8>` as it is written to. */
  class Buffer {
    var data: bytes

    constructor ()
      ensures data == []
    {
      data := [];
    }

    method WriteU8(v: byte)
      modifies this
      ensures data == old(data) + [v]
    {
      data := data + [v];
    }

    method WriteU16(v: u16)
      modifies this
      ensures data == old(data) + Be16(v)
    {
      data := data + [v / 0x100, v % 0x100];
    }

    method WriteU32(v: u32)
      modifies this
      ensures data == old(data) + Be32(v)
    {
      WriteU16(v / 0x1_0000);
      WriteU16(v % 0x1_0000);
    }

    method WriteSized(payload: bytes)
      modifies this
      ensures data == old(data) + Sized(payload)
    {
      WriteU16(Low16(|payload|));
      data := data + payload;
    }

    /** Overwrites two bytes in place. */
    method PatchU16(at: nat, v: nat)
      requires at + 2 <= |data|
      modifies this
      ensures data == old(data)[..at] + Be16(Low16(v)) + old(data)[at + 2..]
    {
      assert Be16(Low16(v)) == [v / 0x100 % 0x100, v % 0x100];
      data := data[at := v / 0x100 % 0x100];
      data := data[at + 1 := v % 0x100];
    }
  }

  /** `Cursor<&[u8]>`: the readers advance it, and leave it alone when they fail. */
  class Cursor {
    const data: bytes
    var pos: nat

    ghost predicate Valid()
      reads this
    {
      pos <= |data|
    }

    ghost function Rest(): bytes
      reads this
      requires Valid()
    {
      data[pos..]
    }

    constructor (data: bytes)
      ensures Valid() && pos == 0 && this.data == data && Rest() == data
    {
      this.data := data;
      pos := 0;
    }

    method ReadU8() returns (r: Result<byte>)
      requires Valid()
      modifies this
      ensures Valid()
      ensures
        match GetU8(old(Rest()))
        case Ok((v, rest)) => r == Ok(v) && Rest() == rest
        case Err => r == Err
    {
      if |data| - pos < 1 {
        return Err;
      }
      r := Ok(data[pos]);
      pos := pos + 1;
    }

    method ReadU16() returns (r: Result<u16>)
      requires Valid()
      modifies this
      ensures Valid()
      ensures
        match GetU16(old(Rest()))
        case Ok((v, rest)) => r == Ok(v) && Rest() == rest
        case Err => r == Err
    {
      if |data| - pos < 2 {
        return Err;
      }
      r := Ok(FromBe16(data[pos..]));
      pos := pos + 2;
    }

    method ReadU32() returns (r: Result<u32>)
      requires Valid()
      modifies this
      ensures Valid()
      ensures
        match GetU32(old(Rest()))
        case Ok((v, rest)) => r == Ok(v) && Rest() == rest
        case Err => r == Err
    {
      if |data| - pos < 4 {
        return Err;
      }
      r := Ok(FromBe32(data[pos..]));
      pos := pos + 4;
    }

    /** A 16-bit length and that many bytes. */
    method ReadSized() returns (r: Result<bytes>)
      requires Valid()
      modifies this
      ensures Valid()
      ensures
        match GetSized(old(Rest()))
        case Ok((v, rest)) => r == Ok(v) && Rest() == rest
        case Err => r == Err
    {
      var n :- ReadU16();
      if |data| - pos < n {
        return Err;
      }
      assert Rest()[..n] == data[pos..pos + n] && Rest()[n..] == data[pos + n..];
      r := Ok(data[pos..pos + n]);
      pos := pos + n;
    }
  }
}

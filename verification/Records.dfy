/** Sequences of records, each behind its 16-bit length, for any way of writing and parsing one record. */
module Records {
  import opened Numbers
  import opened Wire

  type Parser<T> = bytes -> Result<(T, bytes)>

  function PutAll<T>(put: T -> bytes, xs: seq<T>): bytes {
    if xs == [] then [] else Sized(put(xs[0])) + PutAll(put, xs[1..])
  }

  /** A record parsed from a slice of its own; bytes left over in the slice are ignored. */
  function GetOne<T>(get: Parser<T>, s: bytes): Result<(T, bytes)> {
    var (slice, rest) :- GetSized(s);
    var (x, _) :- get(slice);
    Ok((x, rest))
  }

  function Framed<T>(get: Parser<T>): Parser<T> { (s: bytes) => GetOne(get, s) }

  function GetAll<T>(next: Parser<T>, count: nat, s: bytes): Result<seq<T>> {
    if count == 0 then Ok([])
    else
      var (x, rest) :- next(s);
      var xs :- GetAll(next, count - 1, rest);
      Ok([x] + xs)
  }

  /** A packet of records: their number, cut to 8 bits, and the records. */
  function PutPacket<T>(put: T -> bytes, xs: seq<T>): bytes { [|xs| % 0x100] + PutAll(put, xs) }

  function GetPacket<T>(get: Parser<T>, s: bytes): Result<seq<T>> {
    var (count, rest) :- GetU8(s);
    GetAll(Framed(get), count, rest)
  }

  predicate RoundTrips<T(==)>(put: T -> bytes, get: Parser<T>, x: T) {
    |put(x)| < 0x1_0000 && get(put(x)) == Ok((x, []))
  }

  function Prepend<T>(xs: seq<T>, r: Result<seq<T>>): Result<seq<T>> {
    if r.Ok? then Ok(xs + r.value) else Err
  }

  lemma PrependNone<T>(r: Result<seq<T>>)
    ensures Prepend([], r) == r
  {
    if r.Ok? {
      assert [] + r.value == r.value;
    }
  }

  /** Parsing goes on from what is left after one more record. */
  lemma GetOneMore<T>(next: Parser<T>, xs: seq<T>, count: nat, s: bytes)
    requires 0 < count
    ensures Prepend(xs, GetAll(next, count, s)) ==
      match next(s)
      case Err => Err
      case Ok((x, rest)) => Prepend(xs + [x], GetAll(next, count - 1, rest))
  {
    if next(s).Ok? {
      var (x, rest) := next(s).value;
      var more := GetAll(next, count - 1, rest);
      if more.Ok? {
        assert xs + ([x] + more.value) == xs + [x] + more.value;
      }
    }
  }

  lemma {:induction false} PutOneMore<T>(put: T -> bytes, xs: seq<T>, x: T)
    ensures PutAll(put, xs + [x]) == PutAll(put, xs) + Sized(put(x))
  {
    if xs == [] {
      assert [x][1..] == [];
    } else {
      PutOneMore(put, xs[1..], x);
      assert (xs + [x])[1..] == xs[1..] + [x];
      assert PutAll(put, xs + [x]) == Sized(put(xs[0])) + (PutAll(put, xs[1..]) + Sized(put(x)));
    }
  }

  /** Records whose parser undoes their writer are read back, bytes behind them or not. */
  lemma {:induction false} RecordsRoundTrip<T>(put: T -> bytes, get: Parser<T>, xs: seq<T>)
    requires forall i :: 0 <= i < |xs| ==> RoundTrips(put, get, xs[i])
    ensures GetAll(Framed(get), |xs|, PutAll(put, xs)) == Ok(xs)
    decreases |xs|
  {
    if xs != [] {
      GetPutSized(put(xs[0]), PutAll(put, xs[1..]));
      RecordsRoundTrip(put, get, xs[1..]);
      assert [xs[0]] + xs[1..] == xs;
    }
  }

  lemma {:induction false} CountIsKept<T>(next: Parser<T>, count: nat, s: bytes)
    ensures GetAll(next, count, s).Ok? ==> |GetAll(next, count, s).value| == count
    decreases count
  {
    if count > 0 && next(s).Ok? {
      CountIsKept(next, count - 1, next(s).value.1);
    }
  }

  /** What holds of every record parsed singly holds of all records parsed in a row. */
  lemma {:induction false} ParsedAreSmall<T>(next: Parser<T>, size: T -> nat, count: nat, s: bytes)
    requires forall t :: next(t).Ok? ==> size(next(t).value.0) < 0x1_0000
    requires GetAll(next, count, s).Ok?
    ensures forall i :: 0 <= i < |GetAll(next, count, s).value| ==> size(GetAll(next, count, s).value[i]) < 0x1_0000
    decreases count
  {
    if count > 0 {
      ParsedAreSmall(next, size, count - 1, next(s).value.1);
    }
  }

  lemma GetPutPacket<T>(put: T -> bytes, get: Parser<T>, xs: seq<T>)
    ensures GetPacket(get, PutPacket(put, xs)) == GetAll(Framed(get), |xs| % 0x100, PutAll(put, xs))
  {
    GetPutU8(|xs| % 0x100, PutAll(put, xs));
  }

  /** A packet read back holds no more records than were written. */
  lemma ReadsNoMore<T>(put: T -> bytes, get: Parser<T>, xs: seq<T>)
    requires GetPacket(get, PutPacket(put, xs)).Ok?
    ensures |GetPacket(get, PutPacket(put, xs)).value| <= |xs|
  {
    GetPutPacket(put, get, xs);
    CountIsKept(Framed(get), |xs| % 0x100, PutAll(put, xs));
  }

  lemma PacketOfRecordsRoundTrip<T>(put: T -> bytes, get: Parser<T>, xs: seq<T>)
    requires |xs| <= 255 && forall i :: 0 <= i < |xs| ==> RoundTrips(put, get, xs[i])
    ensures GetPacket(get, PutPacket(put, xs)) == Ok(xs)
  {
    RecordsRoundTrip(put, get, xs);
    assert |xs| % 0x100 == |xs|;
    GetPutPacket(put, get, xs);
  }

  /** A packet that is read back has no more records than its count can say, nor larger
      ones than their lengths can say, when the parser never takes more than it is given. */
  lemma ReadBackIsSmall<T>(put: T -> bytes, get: Parser<T>, size: T -> nat, xs: seq<T>)
    requires forall slice :: get(slice).Ok? ==> size(get(slice).value.0) <= |slice|
    requires GetPacket(get, PutPacket(put, xs)) == Ok(xs)
    ensures |xs| <= 255 && forall i :: 0 <= i < |xs| ==> size(xs[i]) < 0x1_0000
  {
    GetPutPacket(put, get, xs);
    CountIsKept(Framed(get), |xs| % 0x100, PutAll(put, xs));
    forall t | Framed(get)(t).Ok? ensures size(Framed(get)(t).value.0) < 0x1_0000 {
      FramedIsSmall(get, size, t);
    }
    ParsedAreSmall(Framed(get), size, |xs| % 0x100, PutAll(put, xs));
  }

  lemma FramedIsSmall<T>(get: Parser<T>, size: T -> nat, s: bytes)
    requires forall slice :: get(slice).Ok? ==> size(get(slice).value.0) <= |slice|
    requires GetOne(get, s).Ok?
    ensures size(GetOne(get, s).value.0) < 0x1_0000
  {
    var (slice, _) := GetSized(s).value;
    assert size(get(slice).value.0) <= |slice|;
  }

  // ----- several packets -----

  /** What all of `packets` hold, in a row; nothing if one cannot be read. */
  function ReadEach<T>(read: bytes -> Result<seq<T>>, packets: seq<bytes>): Result<seq<T>> {
    if packets == [] then Ok([])
    else
      var first :- read(packets[0]);
      var rest :- ReadEach(read, packets[1..]);
      Ok(first + rest)
  }

  lemma ReadFirstIff<T>(read: bytes -> Result<seq<T>>, packet: bytes, rest: seq<bytes>)
    ensures ReadEach(read, [packet] + rest).Ok? <==> read(packet).Ok? && ReadEach(read, rest).Ok?
    ensures ReadEach(read, [packet] + rest).Ok? ==>
      ReadEach(read, [packet] + rest).value == read(packet).value + ReadEach(read, rest).value
  {
    assert ([packet] + rest)[1..] == rest;
  }

  lemma {:induction false} ReadInPartsIff<T>(read: bytes -> Result<seq<T>>, a: seq<bytes>, b: seq<bytes>)
    ensures ReadEach(read, a + b).Ok? <==> ReadEach(read, a).Ok? && ReadEach(read, b).Ok?
    ensures ReadEach(read, a + b).Ok? ==>
      ReadEach(read, a + b).value == ReadEach(read, a).value + ReadEach(read, b).value
    decreases |a|
  {
    if a == [] {
      assert a + b == b;
      if ReadEach(read, b).Ok? {
        assert [] + ReadEach(read, b).value == ReadEach(read, b).value;
      }
    } else {
      ReadInPartsIff(read, a[1..], b);
      assert a + b == [a[0]] + (a[1..] + b) && a == [a[0]] + a[1..];
      ReadFirstIff(read, a[0], a[1..] + b);
      ReadFirstIff(read, a[0], a[1..]);
      if ReadEach(read, a + b).Ok? {
        var first, rest, tail := read(a[0]).value, ReadEach(read, a[1..]).value, ReadEach(read, b).value;
        assert first + (rest + tail) == first + rest + tail;
      }
    }
  }

  lemma {:induction false} InSomePacket<T>(read: bytes -> Result<seq<T>>, packets: seq<bytes>, x: T)
    requires ReadEach(read, packets).Ok?
    ensures x in ReadEach(read, packets).value <==> exists d :: d in packets && read(d).Ok? && x in read(d).value
    decreases |packets|
  {
    if packets != [] {
      InSomePacket(read, packets[1..], x);
      assert forall d :: d in packets <==> d == packets[0] || d in packets[1..];
    }
  }
}

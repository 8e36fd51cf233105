/** Packing queued commands into one datagram of bounded size. */
module Packer {
  import opened Numbers
  import opened Command
  import opened Records
  import opened Encoder
  import opened Decoder
  import opened Codec
  import opened Framing
  import opened Config
  import opened Queue

  /** A PMTU probe at the head of the queue may use the whole receive buffer. */
  function EffectiveMax(config: Config, q: Queue, maxSize: nat): nat {
    if q.commands != [] && q.commands[0].PMTUProbe? then config.receiveBufferMaxSize else maxSize
  }

  /** How many commands from the front fit when `used` bytes are taken. */
  function Fitting(cs: seq<Command>, used: nat, maxSize: nat): nat {
    if cs == [] || used + 2 + cs[0].WireSize() > maxSize then 0
    else 1 + Fitting(cs[1..], used + 2 + cs[0].WireSize(), maxSize)
  }

  /** One call of `encode_queued_commands_bounded`: the queue afterwards and what the call returns. */
  function PackBounded(libs: Libraries, config: Config, q: Queue, maxSize: nat): (Queue, Result<Option<bytes>>) {
    var limit := EffectiveMax(config, q, maxSize);
    var n := Fitting(q.commands, config.StaticOverhead(), limit);
    FittingWithin(q.commands, config.StaticOverhead(), limit);
    if n == 0 then (q, Ok(None))
    else
      var rest := q.Drained().EnqueueAll(q.commands[n..]);
      match Datagram(libs, config, q.commands[..n])
      case Err => (rest, Err)
      case Ok(datagram) => (rest, Ok(if |datagram| > limit then None else Some(datagram)))
  }

  /** One call of `encode_queued_commands`: everything goes, whatever its size. */
  function PackAll(libs: Libraries, config: Config, q: Queue): (Queue, Result<bytes>) {
    (q.Drained(), Datagram(libs, config, q.commands))
  }

  lemma {:induction false} FittingWithin(cs: seq<Command>, used: nat, maxSize: nat)
    ensures Fitting(cs, used, maxSize) <= |cs|
  {
    if cs != [] && used + 2 + cs[0].WireSize() <= maxSize {
      FittingWithin(cs[1..], used + 2 + cs[0].WireSize(), maxSize);
    }
  }

  lemma TotalSizeFirst(cs: seq<Command>, m: nat)
    requires 0 < m <= |cs|
    ensures TotalSize(cs[..m]) == 2 + cs[0].WireSize() + TotalSize(cs[1..][..m - 1])
  {
    assert cs[..m][1..] == cs[1..][..m - 1];
  }

  /** The selected prefix is the longest that fits. */
  lemma {:induction false} FittingIsLongest(cs: seq<Command>, used: nat, maxSize: nat, m: nat)
    requires 0 < m <= |cs|
    ensures m <= Fitting(cs, used, maxSize) <==> used + TotalSize(cs[..m]) <= maxSize
    decreases |cs|
  {
    var more := used + 2 + cs[0].WireSize();
    TotalSizeFirst(cs, m);
    if more <= maxSize && 1 < m {
      FittingIsLongest(cs[1..], more, maxSize, m - 1);
    } else if m == 1 {
      assert cs[1..][..0] == [];
    }
  }

  lemma {:induction false} TotalSizeAtLeast(cs: seq<Command>)
    ensures 6 * |cs| <= TotalSize(cs)
  {
    if cs != [] {
      TotalSizeAtLeast(cs[1..]);
      EncodedSize(cs[0]);
    }
  }

  lemma {:induction false} EachWithinTotal(cs: seq<Command>, i: nat)
    requires i < |cs|
    ensures 2 + cs[i].WireSize() <= TotalSize(cs)
  {
    if i > 0 {
      EachWithinTotal(cs[1..], i - 1);
    }
  }

  function Selected(config: Config, q: Queue, maxSize: nat): (n: nat)
    ensures n <= |q.commands|
  {
    var limit := EffectiveMax(config, q, maxSize);
    FittingWithin(q.commands, config.StaticOverhead(), limit);
    Fitting(q.commands, config.StaticOverhead(), limit)
  }

  lemma SelectedFits(config: Config, q: Queue, maxSize: nat)
    requires 0 < Selected(config, q, maxSize)
    ensures
      config.StaticOverhead() + TotalSize(q.commands[..Selected(config, q, maxSize)])
        <= EffectiveMax(config, q, maxSize)
  {
    FittingIsLongest(
      q.commands, config.StaticOverhead(), EffectiveMax(config, q, maxSize), Selected(config, q, maxSize));
  }

  lemma DatagramSize(libs: Libraries, config: Config, cs: seq<Command>)
    requires Datagram(libs, config, cs).Ok?
    ensures |Datagram(libs, config, cs).value| <= config.StaticOverhead() + TotalSize(cs)
  {
    PacketSize(cs);
    FrameSize(libs, EncodePacket(cs), config.compression, config.compressionThreshold, config.useChecksums);
  }

  /** Packing splits the queue: the datagram carries a prefix, the rest stays in order and within its
      budget, and the datagram is within the effective maximum, so the guard at the end never drops it. */
  lemma PackSplitsQueue(libs: Libraries, config: Config, q: Queue, maxSize: nat)
    requires q.Valid()
    ensures
      var n := Selected(config, q, maxSize);
      var (after, r) := PackBounded(libs, config, q, maxSize);
      && after.Valid() && after.limit == q.limit
      && after.commands == q.commands[n..]
      && (n == 0 <==> r == Ok(None))
      && (r.Ok? && r.value.Some? ==>
            && Datagram(libs, config, q.commands[..n]) == Ok(r.value.value)
            && |r.value.value| <= EffectiveMax(config, q, maxSize))
  {
    var n := Selected(config, q, maxSize);
    RequeueKeepsAll(q, n);
    if n > 0 {
      SelectedFits(config, q, maxSize);
      if Datagram(libs, config, q.commands[..n]).Ok? {
        DatagramSize(libs, config, q.commands[..n]);
      }
    } else {
      assert q.commands[0..] == q.commands;
    }
  }

  /** The most that a datagram with `head` in front may take. */
  function MostFor(config: Config, head: Command, maxSize: nat): nat {
    if head.PMTUProbe? then config.receiveBufferMaxSize else maxSize
  }

  /** The count byte, the compression header and the checksum, in bytes. */
  function FrameBytes(config: Config): nat {
    1 + (if config.compression.Lz4? then 5 else 1) + (if config.useChecksums then 4 else 0)
  }

  /** In bytes: a datagram takes at most `maxSize`, or the receive buffer if a probe is in front, and of the queue
      exactly those prefixes leave in it that fit this with their frame and their length fields. */
  lemma PackIsExact(libs: Libraries, config: Config, q: Queue, maxSize: nat, m: nat)
    requires q.Valid() && 0 < m <= |q.commands|
    ensures
      var (after, r) := PackBounded(libs, config, q, maxSize);
      var most := MostFor(config, q.commands[0], maxSize);
      && (r.Ok? && r.value.Some? ==> |r.value.value| <= most)
      && (m <= |q.commands| - |after.commands| <==> FrameBytes(config) + TotalSize(q.commands[..m]) <= most)
  {
    PackSplitsQueue(libs, config, q, maxSize);
    FittingIsLongest(q.commands, config.StaticOverhead(), EffectiveMax(config, q, maxSize), m);
  }

  /** What a receiver with the same checksum setting reads out of a datagram. */
  function ReadBack(libs: Libraries, config: Config, datagram: bytes): Result<seq<Command>> {
    var packet :- Unframe(libs, datagram, config.useChecksums);
    DecodePacket(packet)
  }

  lemma DatagramReadsBack(libs: Libraries, config: Config, cs: seq<Command>)
    requires libs.Faithful() && Datagram(libs, config, cs).Ok?
    ensures ReadBack(libs, config, Datagram(libs, config, cs).value) == DecodePacket(EncodePacket(cs))
  {
    FrameRoundTrip(libs, EncodePacket(cs), config.compression, config.compressionThreshold, config.useChecksums);
  }

  /** Room for fewer than 256 commands of 6 bytes, the smallest there are. */
  predicate CountFits(config: Config, q: Queue, maxSize: nat) {
    EffectiveMax(config, q, maxSize) < config.StaticOverhead() + 1536
  }

  lemma FewAreSelected(config: Config, q: Queue, maxSize: nat)
    requires CountFits(config, q, maxSize)
    ensures Selected(config, q, maxSize) <= 255
    ensures forall i :: 0 <= i < Selected(config, q, maxSize) ==> Encodable(q.commands[i])
  {
    var n := Selected(config, q, maxSize);
    if n > 0 {
      SelectedFits(config, q, maxSize);
      TotalSizeAtLeast(q.commands[..n]);
      forall i | 0 <= i < n ensures Encodable(q.commands[i]) {
        EachWithinTotal(q.commands[..n], i);
      }
    }
  }

  /** Sender's queue before == what the receiver decodes ++ sender's queue after, whenever the
      maximum leaves room for fewer than 256 commands. */
  lemma PackConserves(libs: Libraries, config: Config, q: Queue, maxSize: nat)
    requires q.Valid() && libs.Faithful() && CountFits(config, q, maxSize)
    requires PackBounded(libs, config, q, maxSize).1.Ok? && PackBounded(libs, config, q, maxSize).1.value.Some?
    ensures
      var (after, r) := PackBounded(libs, config, q, maxSize);
      var received := ReadBack(libs, config, r.value.value);
      received.Ok? && received.value != [] && received.value + after.commands == q.commands
  {
    var n := Selected(config, q, maxSize);
    PackSplitsQueue(libs, config, q, maxSize);
    FewAreSelected(config, q, maxSize);
    SelectedReadBack(libs, config, q.commands[..n]);
    assert q.commands[..n] + q.commands[n..] == q.commands;
  }

  lemma SelectedReadBack(libs: Libraries, config: Config, cs: seq<Command>)
    requires libs.Faithful() && Datagram(libs, config, cs).Ok?
    requires |cs| <= 255 && forall i :: 0 <= i < |cs| ==> Encodable(cs[i])
    ensures ReadBack(libs, config, Datagram(libs, config, cs).value) == Ok(cs)
  {
    DatagramReadsBack(libs, config, cs);
    PacketRoundTrip(cs);
  }

  /** In general the receiver gets the selected commands exactly when their count fits its byte and each
      its length field. */
  lemma ReadBackIff(libs: Libraries, config: Config, q: Queue, maxSize: nat)
    requires q.Valid() && libs.Faithful()
    requires PackBounded(libs, config, q, maxSize).1.Ok? && PackBounded(libs, config, q, maxSize).1.value.Some?
    ensures
      var r := PackBounded(libs, config, q, maxSize).1;
      var n := Selected(config, q, maxSize);
      ReadBack(libs, config, r.value.value) == Ok(q.commands[..n]) <==>
        n <= 255 && forall i :: 0 <= i < n ==> Encodable(q.commands[i])
  {
    var n := Selected(config, q, maxSize);
    PackSplitsQueue(libs, config, q, maxSize);
    DatagramReadsBack(libs, config, q.commands[..n]);
    PacketRoundTripIff(q.commands[..n]);
    assert forall i :: 0 <= i < n ==> q.commands[..n][i] == q.commands[i];
  }

  function Empties(n: nat): (cs: seq<Command>)
    ensures |cs| == n && TotalSize(cs) == 6 * n && TotalData(cs) == 0
    ensures forall i :: 0 <= i < n ==> cs[i] == SendUnreliable(0, [])
  {
    if n == 0 then [] else [SendUnreliable(0, [])] + Empties(n - 1)
  }

  /** When everything fits, everything goes out at once. */
  lemma EverythingSelected(libs: Libraries, config: Config, q: Queue, maxSize: nat)
    requires q.Valid() && q.commands != [] && !q.commands[0].PMTUProbe?
    requires config.StaticOverhead() + TotalSize(q.commands) <= maxSize
    requires Datagram(libs, config, q.commands).Ok?
    ensures PackBounded(libs, config, q, maxSize)
      == (q.Drained(), Ok(Some(Datagram(libs, config, q.commands).value)))
  {
    var n := |q.commands|;
    assert q.commands[..n] == q.commands && q.commands[n..] == [];
    FittingIsLongest(q.commands, config.StaticOverhead(), maxSize, n);
    FittingWithin(q.commands, config.StaticOverhead(), maxSize);
    DatagramSize(libs, config, q.commands);
  }

  lemma CountZeroReadsNothing(cs: seq<Command>)
    requires |cs| % 0x100 == 0
    ensures DecodePacket(EncodePacket(cs)) == Ok([])
  {
    GetPutPacket(EncodeCommand, GetCommand, cs);
  }

  /** One byte more of room than `CountFits` allows: 256 empty commands are packed into one datagram,
      of which the receiver sees none. */
  lemma CountWrapsAt256(libs: Libraries, config: Config, limit: nat)
    requires libs.Faithful() && Datagram(libs, config, Empties(256)).Ok?
    ensures
      var q := Queue(Empties(256), 0, limit);
      var datagram := Datagram(libs, config, q.commands).value;
      && q.Valid()
      && PackBounded(libs, config, q, config.StaticOverhead() + 1536) == (q.Drained(), Ok(Some(datagram)))
      && ReadBack(libs, config, datagram) == Ok([])
  {
    EverythingSelected(libs, config, Queue(Empties(256), 0, limit), config.StaticOverhead() + 1536);
    DatagramReadsBack(libs, config, Empties(256));
    CountZeroReadsNothing(Empties(256));
  }
}

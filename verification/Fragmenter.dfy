/** Splitting payloads into commands that each fit a datagram. */
module Fragmenter {
  import opened Numbers
  import opened Command
  import opened Codec
  import opened Framing
  import opened Config
  import opened Queue
  import opened Packer

  /** The payload that fits a datagram of `cap` bytes behind a command header of `header` bytes. */
  function Budget(config: Config, cap: nat, header: nat): nat {
    SaturatingSub(SaturatingSub(SaturatingSub(cap, config.StaticOverhead()), 2), header)
  }

  function Chunks(data: bytes, size: nat): (chunks: seq<bytes>)
    requires 0 < size
    ensures chunks != []
    decreases |data|
  {
    if |data| <= size then [data] else [data[..size]] + Chunks(data[size..], size)
  }

  function CeilDiv(a: nat, b: nat): nat
    requires 0 < b
  {
    if a <= b then (if a == 0 then 0 else 1) else 1 + CeilDiv(a - b, b)
  }

  /** `CeilDiv(a, b)` is `a / b` rounded up. */
  lemma {:induction false} CeilDivIsCeiling(a: nat, b: nat)
    requires 0 < b
    ensures a <= CeilDiv(a, b) * b < a + b
    decreases a
  {
    if b < a {
      CeilDivIsCeiling(a - b, b);
      OneMoreTimes(CeilDiv(a - b, b), b);
    }
  }

  lemma OneMoreTimes(n: nat, b: nat)
    ensures (1 + n) * b == n * b + b
  {
  }

  /** One way of sending payloads: as a single command, or as numbered fragments. */
  datatype Style =
    | UnreliableData(channelId: byte, number: u16)
    | ReliableData(channelId: byte, number: u16, ordered: bool)
  {
    function SingleHeader(): nat { if UnreliableData? then 4 else 7 }

    function FragmentHeader(): nat { if UnreliableData? then 8 else 9 }

    function Single(data: bytes): Command {
      match this
      case UnreliableData(channelId, _) => SendUnreliable(channelId, data)
      case ReliableData(channelId, number, ordered) => SendReliable(channelId, number, ordered, data)
    }

    function Fragment(fragmentId: byte, fragmentCount: byte, data: bytes): Command {
      match this
      case UnreliableData(channelId, number) =>
        SendUnreliableFragment(channelId, number, fragmentId, fragmentCount, data)
      case ReliableData(channelId, number, ordered) =>
        SendFragment(channelId, number, ordered, fragmentId, fragmentCount, data)
    }

    function FragmentAll(chunks: seq<bytes>): (cs: seq<Command>)
      requires |chunks| <= 255
      ensures |cs| == |chunks|
    {
      seq(|chunks|, i requires 0 <= i < |chunks| => Fragment(i, |chunks|, chunks[i]))
    }

    /** The commands enqueued for `data`. */
    function Commands(config: Config, cap: nat, data: bytes): seq<Command> {
      var single, size := Budget(config, cap, SingleHeader()), Budget(config, cap, FragmentHeader());
      if single < 1 then []
      else if |data| <= single then [Single(data)]
      else if size < 1 then []
      else if CeilDiv(|data|, size) > 255 then []
      else if CeilDiv(|data|, size) > config.maxFragments then [Fragment(0, 1, data[..Min(size, |data|)])]
      else
        ChunkCount(data, size);
        FragmentAll(Chunks(data, size))
    }

    /** Every fragment of `data` is sent, or `data` in one command. */
    predicate SendsWhole(config: Config, cap: nat, data: bytes) {
      var single, size := Budget(config, cap, SingleHeader()), Budget(config, cap, FragmentHeader());
      && 1 <= single
      && (|data| <= single || (1 <= size && CeilDiv(|data|, size) <= config.maxFragments))
    }
  }

  lemma {:induction false} ChunkCount(data: bytes, size: nat)
    requires 0 < size && data != []
    ensures |Chunks(data, size)| == CeilDiv(|data|, size)
    decreases |data|
  {
    if size < |data| {
      ChunkCount(data[size..], size);
    }
  }

  /** The chunks are non-empty and within `size`. */
  lemma {:induction false} ChunksAreSmall(data: bytes, size: nat, i: nat)
    requires 0 < size && data != [] && i < |Chunks(data, size)|
    ensures 0 < |Chunks(data, size)[i]| <= size
    decreases |data|
  {
    if size < |data| && 0 < i {
      ChunksAreSmall(data[size..], size, i - 1);
    }
  }

  function Concat(chunks: seq<bytes>): bytes {
    if chunks == [] then [] else chunks[0] + Concat(chunks[1..])
  }

  /** The chunks in a row are the payload. */
  lemma {:induction false} ChunksConcat(data: bytes, size: nat)
    requires 0 < size
    ensures Concat(Chunks(data, size)) == data
    decreases |data|
  {
    if |data| <= size {
      assert data + [] == data;
      assert [data][1..] == [];
    } else {
      ChunksConcat(data[size..], size);
      assert data == data[..size] + data[size..];
    }
  }

  /** `i * size`, step by step. */
  function Offset(i: nat, size: nat): nat { if i == 0 then 0 else size + Offset(i - 1, size) }

  lemma {:induction false} OffsetIsProduct(i: nat, size: nat)
    ensures Offset(i, size) == i * size
    decreases i
  {
    if i > 0 {
      OffsetIsProduct(i - 1, size);
      OneMoreTimes(i - 1, size);
    }
  }

  /** Where the loop of the source cuts chunk `i` out. */
  lemma {:induction false} ChunkAt(data: bytes, size: nat, i: nat)
    requires 0 < size && data != [] && i < |Chunks(data, size)|
    ensures Offset(i, size) < |data|
    ensures Chunks(data, size)[i] == data[Offset(i, size)..Min(Offset(i + 1, size), |data|)]
    decreases |data|
  {
    if i == 0 {
      assert Offset(1, size) == size;
      assert data[..|data|] == data;
    } else {
      var start, end := Offset(i - 1, size), Min(Offset(i, size), |data| - size);
      ChunkAt(data[size..], size, i - 1);
      assert data[size..][start..end] == data[size + start..size + end];
    }
  }

  /** A command alone in a datagram of at most `cap` bytes. */
  predicate FitsAlone(config: Config, cap: nat, c: Command) {
    config.StaticOverhead() + 2 + c.WireSize() <= cap
  }

  /** Fragmenter, codec and framing agree: every command enqueued for a payload makes a datagram within the cap. */
  lemma CommandsFit(config: Config, cap: nat, style: Style, data: bytes, i: nat)
    requires i < |style.Commands(config, cap, data)|
    ensures FitsAlone(config, cap, style.Commands(config, cap, data)[i])
  {
    var size := Budget(config, cap, style.FragmentHeader());
    if Budget(config, cap, style.SingleHeader()) < |data| && CeilDiv(|data|, size) <= config.maxFragments {
      ChunkCount(data, size);
      ChunksAreSmall(data, size, i);
    }
  }

  lemma FitsAloneMeansFits(libs: Libraries, config: Config, cap: nat, c: Command)
    requires FitsAlone(config, cap, c) && Datagram(libs, config, [c]).Ok?
    ensures |Datagram(libs, config, [c]).value| <= cap
  {
    assert [c][1..] == [];
    assert TotalSize([c]) == 2 + c.WireSize();
    DatagramSize(libs, config, [c]);
  }

  /** The payload bytes that `cs` carry, in order. */
  function Carried(cs: seq<Command>): bytes {
    if cs == [] then []
    else Payload(cs[0]) + Carried(cs[1..])
  }

  function Payload(c: Command): bytes {
    match c
    case SendReliable(_, _, _, data) => data
    case SendUnreliable(_, data) => data
    case SendFragment(_, _, _, _, _, data) => data
    case SendUnreliableFragment(_, _, _, _, data) => data
    case _ => []
  }

  lemma {:induction false} CarriedIsConcat(cs: seq<Command>, chunks: seq<bytes>)
    requires |cs| == |chunks| && forall i :: 0 <= i < |cs| ==> Payload(cs[i]) == chunks[i]
    ensures Carried(cs) == Concat(chunks)
    decreases |cs|
  {
    if cs != [] {
      CarriedIsConcat(cs[1..], chunks[1..]);
    }
  }

  lemma OneCarried(c: Command)
    ensures Carried([c]) == Payload(c)
  {
    assert [c][1..] == [];
    assert Payload(c) + [] == Payload(c);
  }

  lemma WholeIsCarried(config: Config, cap: nat, style: Style, data: bytes)
    requires style.SendsWhole(config, cap, data)
    ensures style.Commands(config, cap, data) != [] && Carried(style.Commands(config, cap, data)) == data
  {
    if |data| <= Budget(config, cap, style.SingleHeader()) {
      OneCarried(style.Single(data));
    } else {
      var size := Budget(config, cap, style.FragmentHeader());
      ChunkCount(data, size);
      FragmentsCarry(style, Chunks(data, size));
      ChunksConcat(data, size);
    }
  }

  lemma FragmentsCarry(style: Style, chunks: seq<bytes>)
    requires |chunks| <= 255
    ensures Carried(style.FragmentAll(chunks)) == Concat(chunks)
  {
    CarriedIsConcat(style.FragmentAll(chunks), chunks);
  }

  lemma PartIsCarried(config: Config, cap: nat, style: Style, data: bytes)
    requires !style.SendsWhole(config, cap, data)
    ensures style.Commands(config, cap, data) == [] || |Carried(style.Commands(config, cap, data))| < |data|
  {
    var size := Budget(config, cap, style.FragmentHeader());
    if style.Commands(config, cap, data) != [] {
      OneCarried(style.Commands(config, cap, data)[0]);
    }
  }

  /** The commands carry the payload exactly when the cap leaves a byte of room and the payload fits
      one command, or the fragments it takes are at most `max_fragments`. */
  lemma CarriesPayloadIff(config: Config, cap: nat, style: Style, data: bytes)
    ensures
      var cs := style.Commands(config, cap, data);
      cs != [] && Carried(cs) == data <==> style.SendsWhole(config, cap, data)
  {
    if style.SendsWhole(config, cap, data) {
      WholeIsCarried(config, cap, style, data);
    } else {
      PartIsCarried(config, cap, style, data);
    }
  }

  // ----- unsequenced payloads -----

  /** The largest unsequenced chunk; at least one byte, even when that does not fit. */
  function UnsequencedBudget(config: Config, cap: nat): (size: nat)
    ensures 0 < size
  {
    Max(1, Budget(config, cap, 6))
  }

  /** The chunks of a payload, numbered from `group` on. */
  function UnsequencedCommands(config: Config, cap: nat, channelId: byte, group: u16, data: bytes): seq<Command> {
    if data == [] then [] else Numbered(channelId, group, Chunks(data, UnsequencedBudget(config, cap)))
  }

  function Numbered(channelId: byte, group: u16, chunks: seq<bytes>): (cs: seq<Command>)
    ensures |cs| == |chunks|
  {
    seq(|chunks|, i requires 0 <= i < |chunks| => SendUnsequenced(channelId, WrappingAdd(group, Wrap(i)), chunks[i]))
  }

  /** What is left to cut off after the first chunk. */
  lemma ChunksFirst(data: bytes, size: nat)
    requires 0 < size && data != []
    ensures
      var len := Min(size, |data|);
      && Chunks(data, size)[0] == data[..len]
      && Chunks(data, size)[1..] == if len == |data| then [] else Chunks(data[len..], size)
  {
    if |data| <= size {
      assert data[..|data|] == data;
    }
  }

  /** The chunking loop has cut `n` of the chunks, up to `offset`. */
  predicate CutUpTo(data: bytes, size: nat, n: nat, offset: nat)
    requires 0 < size
  {
    && offset <= |data| && n <= |Chunks(data, size)|
    && Chunks(data, size)[n..] == if offset == |data| then [] else Chunks(data[offset..], size)
  }

  lemma CutNone(data: bytes, size: nat)
    requires 0 < size && data != []
    ensures CutUpTo(data, size, 0, 0)
  {
    assert data[0..] == data;
  }

  /** One round of the loop. */
  lemma CutNext(data: bytes, size: nat, n: nat, offset: nat)
    requires 0 < size && CutUpTo(data, size, n, offset) && offset < |data|
    ensures
      var end := offset + Min(size, |data| - offset);
      && n < |Chunks(data, size)| && Chunks(data, size)[n] == data[offset..end]
      && CutUpTo(data, size, n + 1, end)
  {
    var chunks, len := Chunks(data, size), Min(size, |data| - offset);
    ChunksFirst(data[offset..], size);
    assert data[offset..][..len] == data[offset..offset + len] && data[offset..][len..] == data[offset + len..];
    assert chunks[n..][1..] == chunks[n + 1..] && chunks[n..][0] == chunks[n];
  }

  lemma CutAll(data: bytes, size: nat, n: nat)
    requires 0 < size && CutUpTo(data, size, n, |data|)
    ensures n == |Chunks(data, size)|
  {
  }

  lemma NextGroup(group: u16, n: nat)
    ensures WrappingAdd(WrappingAdd(group, Wrap(n)), 1) == WrappingAdd(group, Wrap(n + 1))
  {
    WrapPlus(group + Wrap(n), 1);
    WrapPlus(n, group + 1);
    WrapPlus(n + 1, group);
  }

  /** The chunks fit the cap exactly when it leaves room for one byte. */
  lemma UnsequencedFitsIff(config: Config, cap: nat, channelId: byte, group: u16, data: bytes, i: nat)
    requires i < |UnsequencedCommands(config, cap, channelId, group, data)|
    ensures FitsAlone(config, cap, UnsequencedCommands(config, cap, channelId, group, data)[i])
      <==> 1 <= Budget(config, cap, 6)
  {
    ChunksAreSmall(data, UnsequencedBudget(config, cap), i);
  }
}

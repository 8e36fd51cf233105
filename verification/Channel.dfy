/** Per-channel ordering. */
module Channel {
  import opened Numbers

  datatype Channel = Channel(expected: u16, buffered: map<u16, bytes>, latest: u16) {
    /** What is ready from `expected` on, in order; ends when the buffer has a gap, at the latest when it is empty. */
    function Ready(): seq<bytes>
      decreases |buffered|
    {
      if expected in buffered then [buffered[expected]] + Take().Ready() else []
    }

    function Take(): (c: Channel)
      requires expected in buffered
      ensures |c.buffered| < |buffered|
    {
      var rest := buffered - {expected};
      assert buffered.Keys == rest.Keys + {expected};
      Channel(WrappingAdd(expected, 1), rest, latest)
    }

    function AfterReady(): Channel
      decreases |buffered|
    {
      if expected in buffered then Take().AfterReady() else this
    }

    lemma ReadyFirst(before: seq<bytes>)
      requires expected in buffered
      ensures before + Ready() == before + [buffered[expected]] + Take().Ready()
      ensures AfterReady() == Take().AfterReady()
    {
    }

    function Buffer(number: u16, data: bytes): Channel { this.(buffered := buffered[number := data]) }

    /** Is `number` not behind the latest one seen? Number 0 always passes. */
    predicate Newer(number: u16) { WrappingSub(number, latest) < 32768 || number == 0 }

    function Sequence(number: u16): Channel { if Newer(number) then this.(latest := number) else this }
  }

  function NewChannel(): Channel { Channel(0, map[], 0) }

  class ChannelState {
    var expectedSequence: u16
    var bufferedPackets: map<u16, bytes>
    var latestSequence: u16

    function State(): Channel
      reads this
    {
      Channel(expectedSequence, bufferedPackets, latestSequence)
    }

    constructor ()
      ensures State() == NewChannel()
    {
      expectedSequence, bufferedPackets, latestSequence := 0, map[], 0;
    }

    constructor From(c: Channel)
      ensures State() == c
    {
      expectedSequence, bufferedPackets, latestSequence := c.expected, c.buffered, c.latest;
    }

    method ProcessOrdered(number: u16, data: bytes) returns (readyPackets: seq<bytes>)
      modifies this
      ensures readyPackets == old(State()).Buffer(number, data).Ready()
      ensures State() == old(State()).Buffer(number, data).AfterReady()
    {
      readyPackets := [];
      bufferedPackets := bufferedPackets[number := data];
      ghost var all := State();
      while expectedSequence in bufferedPackets
        invariant all.Ready() == readyPackets + State().Ready()
        invariant all.AfterReady() == State().AfterReady()
        decreases |bufferedPackets|
      {
        State().ReadyFirst(readyPackets);
        ghost var taken := State().Take();
        readyPackets := readyPackets + [bufferedPackets[expectedSequence]];
        bufferedPackets := bufferedPackets - {expectedSequence};
        expectedSequence := WrappingAdd(expectedSequence, 1);
        assert State() == taken;
      }
    }

    method ProcessSequenced(number: u16, data: bytes) returns (r: Option<bytes>)
      modifies this
      ensures State() == old(State()).Sequence(number)
      ensures r == if old(State()).Newer(number) then Some(data) else None
    {
      if WrappingSub(number, latestSequence) < 32768 || number == 0 {
        latestSequence := number;
        return Some(data);
      }
      return None;
    }
  }
}

/** Ordered delivery over absolute packet numbers, across 16-bit wraps. */
module ChannelHistory {
  import opened Numbers
  import opened Channel

  /** A receiver of the stream `payload(0), payload(1), ...`, of which `length` packets are ever
      sent: the next number due, what has arrived, and the number of each packet in the buffer. */
  datatype Receiver = Receiver(channel: Channel, next: nat, arrived: set<nat>, held: map<u16, nat>) {
    ghost predicate Valid(payload: nat -> bytes, length: nat) {
      InStep(length) && AllSound(payload, length) && AllHeld()
    }

    ghost predicate InStep(length: nat) {
      && channel.expected == Wrap(next)
      && next <= length
      && (forall n: nat :: n < next ==> n in arrived)
      && (forall n :: n in arrived ==> n < length && n < next + 0x1_0000)
      && held.Keys == channel.buffered.Keys
    }

    ghost predicate AllSound(payload: nat -> bytes, length: nat) {
      forall k :: k in held ==> Sound(k, payload, length)
    }

    ghost predicate AllHeld() {
      forall n :: n in arrived && next <= n ==> Wrap(n) in held && held[Wrap(n)] == n
    }

    /** What is held under the name `k` is the packet that it says, either still due or a
        duplicate whose name does not come round again. */
    predicate Sound(k: u16, payload: nat -> bytes, length: nat)
      requires k in held
    {
      var n := held[k];
      && Wrap(n) == k && n in arrived
      && k in channel.buffered && channel.buffered[k] == payload(n)
      && (n < next ==> length < n + 0x1_0000)
    }

    /** Everything due before the first gap has been delivered. */
    ghost predicate Settled() { next !in arrived }

    function Buffer(payload: nat -> bytes, n: nat): Receiver {
      Receiver(channel.Buffer(Wrap(n), payload(n)), next, arrived + {n}, held[Wrap(n) := n])
    }

    function Take(): Receiver
      requires channel.expected in channel.buffered
    {
      Receiver(channel.Take(), next + 1, arrived, held - {channel.expected})
    }
  }

  /** With `next` packets delivered, packet `n` may arrive if it is less than a lap ahead and, when it
      was delivered already, the stream of `length` packets ends before its name comes round again. */
  predicate MayArrive(next: nat, n: nat, length: nat) {
    n < length && n < next + 0x1_0000 && (n < next ==> length < n + 0x1_0000)
  }

  function Start(): Receiver { Receiver(NewChannel(), 0, {}, map[]) }

  /** The stream from packet `from` up to packet `to`. */
  function Stream(payload: nat -> bytes, from: nat, to: nat): seq<bytes>
    requires from <= to
  {
    seq(to - from, i requires 0 <= i < to - from => payload(from + i))
  }

  lemma BufferKeepsValid(r: Receiver, payload: nat -> bytes, length: nat, n: nat)
    requires r.Valid(payload, length) && MayArrive(r.next, n, length)
    ensures r.Buffer(payload, n).Valid(payload, length)
  {
    var s := r.Buffer(payload, n);
    forall k | k in s.held ensures s.Sound(k, payload, length) {
      if k != Wrap(n) {
        assert r.Sound(k, payload, length);
      }
    }
    forall m | m in s.arrived && s.next <= m ensures Wrap(m) in s.held && s.held[Wrap(m)] == m {
      if m != n && Wrap(m) == Wrap(n) {
        WrapInjective(m, n);
      }
    }
  }

  /** The name due next is in the buffer exactly when that packet has arrived, and then with its payload. */
  lemma DueIsHeldIff(r: Receiver, payload: nat -> bytes, length: nat)
    requires r.Valid(payload, length)
    ensures r.channel.expected in r.channel.buffered <==> r.next in r.arrived
    ensures r.next in r.arrived ==> r.channel.buffered[r.channel.expected] == payload(r.next)
  {
    var k := r.channel.expected;
    if k in r.held {
      assert r.Sound(k, payload, length);
      WrapInjective(r.held[k], r.next);
    }
  }

  lemma TakeKeepsInStep(r: Receiver, length: nat)
    requires r.InStep(length) && r.channel.expected in r.channel.buffered && r.next in r.arrived
    ensures r.Take().InStep(length)
  {
    WrapPlus(r.next, 1);
    var s := r.Take();
    assert s.held.Keys == r.held.Keys - {r.channel.expected};
    assert s.channel.buffered.Keys == r.channel.buffered.Keys - {r.channel.expected};
  }

  lemma TakeKeepsSound(r: Receiver, payload: nat -> bytes, length: nat, k: u16)
    requires r.channel.expected in r.channel.buffered && r.channel.expected == Wrap(r.next)
    requires k in r.held && k != r.channel.expected && r.Sound(k, payload, length)
    ensures k in r.Take().held && r.Take().Sound(k, payload, length)
  {
  }

  lemma TakeKeepsHeld(r: Receiver, n: nat)
    requires r.channel.expected in r.channel.buffered && r.channel.expected == Wrap(r.next)
    requires n in r.arrived && r.next < n < r.next + 0x1_0000
    requires Wrap(n) in r.held && r.held[Wrap(n)] == n
    ensures Wrap(n) in r.Take().held && r.Take().held[Wrap(n)] == n
  {
    if Wrap(n) == Wrap(r.next) {
      WrapInjective(n, r.next);
    }
  }

  lemma TakeKeepsValid(r: Receiver, payload: nat -> bytes, length: nat)
    requires r.Valid(payload, length) && r.channel.expected in r.channel.buffered
    ensures r.Take().Valid(payload, length)
  {
    DueIsHeldIff(r, payload, length);
    TakeKeepsInStep(r, length);
    var s := r.Take();
    forall k | k in s.held ensures s.Sound(k, payload, length) {
      TakeKeepsSound(r, payload, length, k);
    }
    forall n | n in s.arrived && s.next <= n ensures Wrap(n) in s.held && s.held[Wrap(n)] == n {
      TakeKeepsHeld(r, n);
    }
  }

  lemma ReadyFirst(c: Channel, payload: nat -> bytes, from: nat, to: nat)
    requires c.expected in c.buffered && c.buffered[c.expected] == payload(from)
    requires from < to && c.Take().Ready() == Stream(payload, from + 1, to)
    ensures c.Ready() == Stream(payload, from, to) && c.AfterReady() == c.Take().AfterReady()
  {
    assert c.Ready() == [payload(from)] + Stream(payload, from + 1, to);
    StreamFirst(payload, from, to);
  }

  lemma ReadyNone(c: Channel, payload: nat -> bytes, from: nat)
    requires c.expected !in c.buffered
    ensures c.Ready() == Stream(payload, from, from) && c.AfterReady() == c
  {
  }

  /** `s` is where draining takes `r`: everything from the number due up to the next gap is delivered. */
  ghost predicate DrainsTo(r: Receiver, s: Receiver, payload: nat -> bytes, length: nat) {
    && s.Valid(payload, length) && s.Settled()
    && s.arrived == r.arrived && r.next <= s.next
    && s.channel == r.channel.AfterReady()
    && r.channel.Ready() == Stream(payload, r.next, s.next)
  }

  lemma DrainsOneMore(r: Receiver, s: Receiver, payload: nat -> bytes, length: nat)
    requires r.channel.expected in r.channel.buffered
    requires r.channel.buffered[r.channel.expected] == payload(r.next)
    requires DrainsTo(r.Take(), s, payload, length)
    ensures DrainsTo(r, s, payload, length)
  {
    ReadyFirst(r.channel, payload, r.next, s.next);
  }

  lemma DrainsNone(r: Receiver, payload: nat -> bytes, length: nat)
    requires r.Valid(payload, length) && r.Settled() && r.channel.expected !in r.channel.buffered
    ensures DrainsTo(r, r, payload, length)
  {
    ReadyNone(r.channel, payload, r.next);
  }

  /** Draining delivers the stream from the number due up to the next gap. */
  lemma {:induction false} DrainDelivers(r: Receiver, payload: nat -> bytes, length: nat) returns (s: Receiver)
    requires r.Valid(payload, length)
    ensures DrainsTo(r, s, payload, length)
    decreases |r.channel.buffered|
  {
    DueIsHeldIff(r, payload, length);
    if r.channel.expected in r.channel.buffered {
      TakeKeepsValid(r, payload, length);
      s := DrainDelivers(r.Take(), payload, length);
      DrainsOneMore(r, s, payload, length);
    } else {
      DrainsNone(r, payload, length);
      s := r;
    }
  }

  lemma StreamFirst(payload: nat -> bytes, from: nat, to: nat)
    requires from < to
    ensures Stream(payload, from, to) == [payload(from)] + Stream(payload, from + 1, to)
  {
  }

  lemma StreamInParts(payload: nat -> bytes, from: nat, mid: nat, to: nat)
    requires from <= mid <= to
    ensures Stream(payload, from, to) == Stream(payload, from, mid) + Stream(payload, mid, to)
  {
  }

  /** `process_ordered` on packet `n`: the outputs and the receiver afterwards. */
  lemma ArrivalDelivers(r: Receiver, payload: nat -> bytes, length: nat, n: nat) returns (s: Receiver)
    requires r.Valid(payload, length) && MayArrive(r.next, n, length)
    ensures s.Valid(payload, length) && s.Settled()
    ensures s.channel == r.channel.Buffer(Wrap(n), payload(n)).AfterReady()
    ensures s.arrived == r.arrived + {n} && r.next <= s.next
    ensures r.channel.Buffer(Wrap(n), payload(n)).Ready() == Stream(payload, r.next, s.next)
  {
    BufferKeepsValid(r, payload, length, n);
    s := DrainDelivers(r.Buffer(payload, n), payload, length);
  }

  // ----- runs of the channel alone -----

  /** What the channel hands up over a run of arrivals, concatenated. */
  function Outputs(c: Channel, payload: nat -> bytes, arrivals: seq<nat>): seq<bytes>
    decreases |arrivals|
  {
    if arrivals == [] then []
    else
      var b := c.Buffer(Wrap(arrivals[0]), payload(arrivals[0]));
      b.Ready() + Outputs(b.AfterReady(), payload, arrivals[1..])
  }

  /** The length of the longest gap-free prefix of the numbers in `arrived`. */
  ghost predicate IsFirstGap(gap: nat, arrived: set<nat>) {
    gap !in arrived && forall n: nat :: n < gap ==> n in arrived
  }

  /** The numbers that have arrived after the first `i` arrivals. */
  function Arrived(arrivals: seq<nat>): set<nat> { set n | n in arrivals }

  /** At each arrival, with `gap` packets delivered so far, the packet may arrive. */
  ghost predicate Admissible(arrivals: seq<nat>, length: nat)
    decreases |arrivals|
  {
    arrivals == []
    || (var before := arrivals[..|arrivals| - 1];
        && Admissible(before, length)
        && forall gap: nat :: IsFirstGap(gap, Arrived(before)) ==> MayArrive(gap, arrivals[|arrivals| - 1], length))
  }

  /** Over every admissible run the outputs, concatenated, are exactly the longest gap-free
      prefix of what has arrived, in the order it was sent. */
  lemma {:induction false} RunDelivers(payload: nat -> bytes, arrivals: seq<nat>, length: nat) returns (r: Receiver)
    requires Admissible(arrivals, length)
    ensures r.Valid(payload, length) && r.arrived == Arrived(arrivals) && IsFirstGap(r.next, Arrived(arrivals))
    ensures Outputs(NewChannel(), payload, arrivals) == Stream(payload, 0, r.next)
    ensures AfterRun(NewChannel(), payload, arrivals) == r.channel
    decreases |arrivals|
  {
    if arrivals == [] {
      r := Start();
    } else {
      var before, n := arrivals[..|arrivals| - 1], arrivals[|arrivals| - 1];
      assert arrivals == before + [n];
      var q := RunDelivers(payload, before, length);
      assert MayArrive(q.next, n, length);
      r := ArrivalDelivers(q, payload, length, n);
      OutputsOneMore(NewChannel(), payload, before, n);
      StreamInParts(payload, 0, q.next, r.next);
      assert Arrived(arrivals) == Arrived(before) + {n};
    }
  }

  function AfterRun(c: Channel, payload: nat -> bytes, arrivals: seq<nat>): Channel
    decreases |arrivals|
  {
    if arrivals == [] then c
    else AfterRun(c.Buffer(Wrap(arrivals[0]), payload(arrivals[0])).AfterReady(), payload, arrivals[1..])
  }

  lemma {:induction false} OutputsOneMore(c: Channel, payload: nat -> bytes, arrivals: seq<nat>, n: nat)
    ensures
      var b := AfterRun(c, payload, arrivals).Buffer(Wrap(n), payload(n));
      && Outputs(c, payload, arrivals + [n]) == Outputs(c, payload, arrivals) + b.Ready()
      && AfterRun(c, payload, arrivals + [n]) == b.AfterReady()
    decreases |arrivals|
  {
    if arrivals == [] {
      OneArrival(c, payload, n);
    } else {
      var b := c.Buffer(Wrap(arrivals[0]), payload(arrivals[0]));
      var rest := arrivals[1..];
      assert (arrivals + [n])[1..] == rest + [n];
      OutputsOneMore(b.AfterReady(), payload, rest, n);
      var last := AfterRun(b.AfterReady(), payload, rest).Buffer(Wrap(n), payload(n));
      Associative(b.Ready(), Outputs(b.AfterReady(), payload, rest), last.Ready());
    }
  }

  lemma OneArrival(c: Channel, payload: nat -> bytes, n: nat)
    ensures
      var b := c.Buffer(Wrap(n), payload(n));
      Outputs(c, payload, [n]) == b.Ready() && AfterRun(c, payload, [n]) == b.AfterReady()
  {
    assert [n][1..] == [];
    Associative(c.Buffer(Wrap(n), payload(n)).Ready(), [], []);
  }

  lemma Associative(a: seq<bytes>, b: seq<bytes>, c: seq<bytes>)
    ensures a + (b + c) == a + b + c
    ensures a + [] == a
  {
  }

  /** With fewer than 65536 packets every late duplicate is harmless: such runs are admissible
      as soon as no packet is sent a lap ahead. */
  lemma {:induction false} ShortStreamsAreAdmissible(arrivals: seq<nat>, length: nat)
    requires length < 0x1_0000
    requires forall i :: 0 <= i < |arrivals| ==> arrivals[i] < length
    ensures Admissible(arrivals, length)
    decreases |arrivals|
  {
    if arrivals != [] {
      ShortStreamsAreAdmissible(arrivals[..|arrivals| - 1], length);
    }
  }
}

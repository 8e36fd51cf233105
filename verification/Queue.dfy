/** The command queue and its byte budget. */
module Queue {
  import opened Numbers
  import opened Command

  /** Commands waiting to be sent and the payload bytes counted against `limit`; a limit of 0 means none. */
  datatype Queue = Queue(commands: seq<Command>, waiting: nat, limit: nat) {
    predicate Accepts(c: Command) { limit == 0 || waiting + c.DataSize() <= limit }

    /** A command that would exceed the limit is dropped. */
    function Enqueue(c: Command): Queue {
      if Accepts(c) then Queue(commands + [c], waiting + c.DataSize(), limit) else this
    }

    function EnqueueAll(cs: seq<Command>): Queue
      decreases |cs|
    {
      if cs == [] then this else Enqueue(cs[0]).EnqueueAll(cs[1..])
    }

    function Drained(): Queue { Queue([], 0, limit) }

    /** The count is the payload in the queue, and within the limit. */
    predicate Valid() {
      waiting == TotalData(commands) && (limit == 0 || waiting <= limit)
    }

    predicate AcceptsAll(cs: seq<Command>) { limit == 0 || waiting + TotalData(cs) <= limit }
  }

  function TotalData(cs: seq<Command>): nat {
    if cs == [] then 0 else cs[0].DataSize() + TotalData(cs[1..])
  }

  lemma {:induction false} TotalDataInParts(a: seq<Command>, b: seq<Command>)
    ensures TotalData(a + b) == TotalData(a) + TotalData(b)
  {
    if a == [] {
      assert a + b == b;
    } else {
      assert (a + b)[1..] == a[1..] + b;
      TotalDataInParts(a[1..], b);
    }
  }

  lemma EnqueueKeepsValid(q: Queue, c: Command)
    requires q.Valid()
    ensures q.Enqueue(c).Valid()
  {
    TotalDataInParts(q.commands, [c]);
    assert [c][1..] == [];
  }

  lemma {:induction false} EnqueueAllKeepsValid(q: Queue, cs: seq<Command>)
    requires q.Valid()
    ensures q.EnqueueAll(cs).Valid() && q.EnqueueAll(cs).limit == q.limit
    decreases |cs|
  {
    if cs != [] {
      EnqueueKeepsValid(q, cs[0]);
      EnqueueAllKeepsValid(q.Enqueue(cs[0]), cs[1..]);
    }
  }

  /** Commands that fit the limit together are all queued, in order. */
  lemma {:induction false} EnqueueAllKeepsAll(q: Queue, cs: seq<Command>)
    requires q.AcceptsAll(cs)
    ensures q.EnqueueAll(cs) == Queue(q.commands + cs, q.waiting + TotalData(cs), q.limit)
    decreases |cs|
  {
    if cs == [] {
      assert q.commands + cs == q.commands;
    } else {
      EnqueueAllKeepsAll(q.Enqueue(cs[0]), cs[1..]);
      assert q.commands + [cs[0]] + cs[1..] == q.commands + cs;
    }
  }

  lemma {:induction false} EnqueueAllInParts(q: Queue, a: seq<Command>, b: seq<Command>)
    ensures q.EnqueueAll(a + b) == q.EnqueueAll(a).EnqueueAll(b)
    decreases |a|
  {
    if a == [] {
      assert a + b == b;
    } else {
      assert (a + b)[1..] == a[1..] + b;
      EnqueueAllInParts(q.Enqueue(a[0]), a[1..], b);
    }
  }

  lemma EnqueueOneMore(q: Queue, cs: seq<Command>, i: nat)
    requires i < |cs|
    ensures q.EnqueueAll(cs[..i + 1]) == q.EnqueueAll(cs[..i]).Enqueue(cs[i])
  {
    assert cs[..i + 1] == cs[..i] + [cs[i]];
    EnqueueAllInParts(q, cs[..i], [cs[i]]);
  }

  /** A loop that enqueues `cs` has come to command `n`. */
  predicate Queued(q: Queue, cs: seq<Command>, n: nat, now: Queue) {
    n <= |cs| && now == q.EnqueueAll(cs[..n])
  }

  lemma QueuedNone(q: Queue, cs: seq<Command>)
    ensures Queued(q, cs, 0, q)
  {
  }

  lemma QueuedNext(q: Queue, cs: seq<Command>, n: nat, now: Queue)
    requires Queued(q, cs, n, now) && n < |cs|
    ensures Queued(q, cs, n + 1, now.Enqueue(cs[n]))
  {
    EnqueueOneMore(q, cs, n);
  }

  lemma QueuedAll(q: Queue, cs: seq<Command>, now: Queue)
    requires Queued(q, cs, |cs|, now)
    ensures now == q.EnqueueAll(cs)
  {
    assert cs[..|cs|] == cs;
  }

  lemma {:induction false} EnqueueAllAtMost(q: Queue, cs: seq<Command>)
    ensures |q.EnqueueAll(cs).commands| <= |q.commands| + |cs|
    decreases |cs|
  {
    if cs != [] {
      EnqueueAllAtMost(q.Enqueue(cs[0]), cs[1..]);
    }
  }

  /** All of `cs` get queued exactly when together they fit the limit. */
  lemma {:induction false} AllQueuedIff(q: Queue, cs: seq<Command>)
    requires q.limit == 0 || q.waiting <= q.limit
    ensures q.EnqueueAll(cs).commands == q.commands + cs <==> q.AcceptsAll(cs)
    decreases |cs|
  {
    if q.AcceptsAll(cs) {
      EnqueueAllKeepsAll(q, cs);
    } else if cs != [] {
      if q.Accepts(cs[0]) {
        var p := q.Enqueue(cs[0]);
        AllQueuedIff(p, cs[1..]);
        EnqueueAllAtMost(p, cs[1..]);
        assert q.commands + cs == p.commands + cs[1..];
      } else {
        EnqueueAllAtMost(q, cs[1..]);
      }
    }
  }

  /** The commands behind the first `n` fit the limit once the queue has been drained. */
  lemma RequeueKeepsAll(q: Queue, n: nat)
    requires q.Valid() && n <= |q.commands|
    ensures q.Drained().EnqueueAll(q.commands[n..]) == Queue(q.commands[n..], TotalData(q.commands[n..]), q.limit)
    ensures q.Drained().EnqueueAll(q.commands[n..]).Valid()
  {
    TotalDataInParts(q.commands[..n], q.commands[n..]);
    assert q.commands[..n] + q.commands[n..] == q.commands;
    EnqueueAllKeepsAll(q.Drained(), q.commands[n..]);
    assert [] + q.commands[n..] == q.commands[n..];
  }
}

/** Reassembly of fragmented payloads. */
module Fragments {
  import opened Numbers
  import opened Clock

  /** The fragments of one payload received so far, by their index. */
  datatype Group = Group(
    channelId: byte, fragmentCount: byte, ordered: bool, fragments: map<byte, bytes>, createdAt: Instant)
  {
    function Add(fragmentId: byte, data: bytes): Group { this.(fragments := fragments[fragmentId := data]) }

    predicate IsComplete() { |fragments| == fragmentCount }

    function Reassemble(): Option<bytes> {
      if IsComplete() then JoinedFrom(fragments, 0, fragmentCount) else None
    }
  }

  /** The fragments `from`, `from + 1`, ... up to `end` in a row, if none is missing. */
  function JoinedFrom(fragments: map<byte, bytes>, from: nat, end: nat): Option<bytes>
    requires from <= end
    decreases end - from
  {
    if from == end then Some([])
    else if from !in fragments then None
    else
      match JoinedFrom(fragments, from + 1, end)
      case None => None
      case Some(rest) => Some(fragments[from] + rest)
  }

  class CommandFragmentBuffer {
    const channelId: byte
    const fragmentCount: byte
    const ordered: bool
    const createdAt: Instant
    var fragments: map<byte, bytes>

    function State(): Group
      reads this
    {
      Group(channelId, fragmentCount, ordered, fragments, createdAt)
    }

    constructor (channelId: byte, fragmentCount: byte, ordered: bool, createdAt: Instant)
      ensures State() == Group(channelId, fragmentCount, ordered, map[], createdAt)
    {
      this.channelId, this.fragmentCount, this.ordered, this.createdAt := channelId, fragmentCount, ordered, createdAt;
      fragments := map[];
    }

    constructor From(g: Group)
      ensures State() == g
    {
      channelId, fragmentCount, ordered, createdAt := g.channelId, g.fragmentCount, g.ordered, g.createdAt;
      fragments := g.fragments;
    }

    method AddFragment(fragmentId: byte, data: bytes)
      modifies this
      ensures State() == old(State()).Add(fragmentId, data)
    {
      fragments := fragments[fragmentId := data];
    }

    /** Takes the buffer apart. */
    method Reassemble() returns (r: Option<bytes>)
      modifies this
      ensures r == old(State()).Reassemble()
    {
      if |fragments| != fragmentCount {
        return None;
      }
      ghost var all := fragments;
      var result: bytes := [];
      var fragmentId: byte := 0;
      PrependNone(JoinedFrom(all, 0, fragmentCount));
      while fragmentId < fragmentCount
        invariant fragmentId <= fragmentCount
        invariant forall k :: fragmentId <= k < fragmentCount ==> (k in fragments <==> k in all)
        invariant forall k :: k in fragments ==> k in all && fragments[k] == all[k]
        invariant JoinedFrom(all, 0, fragmentCount) == Prepend(result, JoinedFrom(all, fragmentId, fragmentCount))
      {
        if fragmentId !in fragments {
          return None;
        }
        PrependOneMore(result, all, fragmentId, fragmentCount);
        result := result + fragments[fragmentId];
        fragments := fragments - {fragmentId};
        fragmentId := fragmentId + 1;
      }
      assert result + [] == result;
      return Some(result);
    }
  }

  function Prepend(before: bytes, r: Option<bytes>): Option<bytes> {
    match r
    case None => None
    case Some(rest) => Some(before + rest)
  }

  lemma PrependNone(r: Option<bytes>)
    ensures Prepend([], r) == r
  {
    if r.Some? {
      assert [] + r.value == r.value;
    }
  }

  lemma PrependOneMore(before: bytes, fragments: map<byte, bytes>, from: nat, end: nat)
    requires from < end && from in fragments
    ensures Prepend(before, JoinedFrom(fragments, from, end))
      == Prepend(before + fragments[from], JoinedFrom(fragments, from + 1, end))
  {
    var rest := JoinedFrom(fragments, from + 1, end);
    if rest.Some? {
      assert before + (fragments[from] + rest.value) == before + fragments[from] + rest.value;
    }
  }

  lemma {:induction false} JoinedIff(fragments: map<byte, bytes>, from: nat, end: nat)
    requires from <= end
    ensures JoinedFrom(fragments, from, end).Some? <==> forall k: nat :: from <= k < end ==> k in fragments
    decreases end - from
  {
    if from < end {
      JoinedIff(fragments, from + 1, end);
      assert from !in fragments ==> JoinedFrom(fragments, from, end).None?;
    }
  }

  /** The indices below `n`. */
  function Below(n: nat): (s: set<byte>)
    requires n <= 0x100
    ensures |s| == n && forall k: byte :: k in s <==> k < n
  {
    if n == 0 then {}
    else
      var last: byte := n - 1;
      Below(n - 1) + {last}
  }

  lemma {:induction false} SmallerSubset(a: set<byte>, b: set<byte>, missing: byte)
    requires a <= b && missing in b && missing !in a
    ensures |a| < |b|
    decreases a
  {
    if x :| x in a {
      SmallerSubset(a - {x}, b - {x}, missing);
    }
  }

  lemma {:induction false} SameSizeSubset(a: set<byte>, b: set<byte>)
    requires |a| == |b| && (a <= b || b <= a)
    ensures a == b
  {
    if x :| x in b && x !in a {
      SmallerSubset(a, b, x);
    } else if x :| x in a && x !in b {
      SmallerSubset(b, a, x);
    }
  }

  /** Counting is enough: a payload comes out exactly when as many fragments as announced are
      there and none has an index at or past the announced count. */
  lemma ReassemblesIff(g: Group)
    ensures g.Reassemble().Some? <==> g.IsComplete() && forall k :: k in g.fragments ==> k < g.fragmentCount
  {
    JoinedIff(g.fragments, 0, g.fragmentCount);
    var keys, below := g.fragments.Keys, Below(g.fragmentCount);
    if g.IsComplete() && (keys <= below || below <= keys) {
      SameSizeSubset(keys, below);
    }
  }
}

/** The ring that remembers which sequence numbers were received recently. */
module SequenceBuffer {
  import opened Numbers
  import opened SerialNumbers

  lemma NameAtDistance(s: u16, num: u16, count: nat)
    requires count < 0x1_0000
    ensures WrappingSub(s, num) == count <==> s == Wrap(num + count)
  {
  }

  /** The contents of a buffer: the next expected number and, for each slot, the
      number it holds. A number lives in the slot given by its remainder. */
  datatype Ring<T> = Ring(num: u16, slots: seq<Option<u16>>, entries: seq<T>) {
    predicate Valid() {
      && 0 < |slots| == |entries| < 0x1_0000
      && forall i :: 0 <= i < |slots| && slots[i].Some? ==> slots[i].value % |slots| == i
    }

    function Index(s: u16): (i: nat)
      requires Valid()
      ensures i < |slots|
    {
      s % |slots|
    }

    predicate Exists(s: u16)
      requires Valid()
    {
      slots[Index(s)] == Some(s)
    }

    function Remove(s: u16, zero: T): (r: Ring<T>)
      requires Valid()
      ensures r.Valid() && |r.slots| == |slots|
    {
      if Exists(s) then Ring(num, slots[Index(s) := None], entries[Index(s) := zero]) else this
    }

    /** Does slot `i` hold one of the `count` numbers that start at `num`? */
    predicate Passed(i: nat, count: nat)
      requires i < |slots|
    {
      slots[i].Some? && WrappingSub(slots[i].value, num) < count
    }

    /** The ring once the `count` numbers that start at `num` have passed out of it. */
    function Forget(count: nat, zero: T): (r: Ring<T>)
      requires Valid()
      ensures r.Valid() && r.num == num && |r.slots| == |slots|
    {
      Ring(num,
           seq(|slots|, i requires 0 <= i < |slots| => if Passed(i, count) then None else slots[i]),
           seq(|slots|, i requires 0 <= i < |slots| => if Passed(i, count) then zero else entries[i]))
    }

    lemma ForgetOneMore(count: nat, zero: T)
      requires Valid()
      requires count < 0x1_0000
      ensures Forget(count + 1, zero) == Forget(count, zero).Remove(Wrap(num + count), zero)
    {
      forall i | 0 <= i < |slots|
        ensures Passed(i, count + 1) <==> Passed(i, count) || slots[i] == Some(Wrap(num + count))
      {
        if slots[i].Some? {
          NameAtDistance(slots[i].value, num, count);
        }
      }
      OnlyInOwnSlot(Wrap(num + count));
    }

    lemma OnlyInOwnSlot(s: u16)
      requires Valid()
      ensures forall i :: 0 <= i < |slots| && slots[i] == Some(s) ==> i == Index(s)
    {
    }

    /** A jump of a whole ring or more clears it. */
    function Slide(span: nat, zero: T): (r: Ring<T>)
      requires Valid()
      ensures r.Valid() && r.num == num && |r.slots| == |slots|
    {
      if span < |slots| then Forget(span + 1, zero) else Empty(|slots|, zero).(num := num)
    }

    /** Is `s` old enough to be turned away? */
    predicate TooOld(s: u16)
      requires Valid()
    {
      SequenceLessThan(s, WrappingSub(num, |slots|))
    }

    function Advance(s: u16, zero: T): (r: Ring<T>)
      requires Valid()
      ensures r.Valid() && |r.slots| == |slots|
    {
      if SequenceGreaterThan(WrappingAdd(s, 1), num)
      then Slide(WrappingSub(s, num), zero).(num := WrappingAdd(s, 1))
      else this
    }

    function Insert(s: u16, entry: T, zero: T): (r: Ring<T>)
      requires Valid()
      ensures r.Valid() && |r.slots| == |slots|
    {
      if TooOld(s) then this else
      var a := Advance(s, zero);
      Ring(a.num, a.slots[Index(s) := Some(s)], a.entries[Index(s) := entry])
    }
  }

  function Empty<T>(size: nat, zero: T): (r: Ring<T>)
    requires 0 < size < 0x1_0000
    ensures r.Valid() && |r.slots| == size
  {
    Ring(0, seq(size, _ => None), seq(size, _ => zero))
  }

  class SequenceBuffer<T> {
    var sequenceNum: u16
    const entrySequences: array<Option<u16>>
    const entries: array<T>
    const zero: T // T::default()

    ghost function Contents(): Ring<T>
      reads this, entrySequences, entries
    {
      Ring(sequenceNum, entrySequences[..], entries[..])
    }

    ghost predicate Valid()
      reads this, entrySequences, entries
    {
      && entrySequences as object != entries
      && entrySequences.Length == entries.Length
      && Contents().Valid()
    }

    /** A buffer of size 0 can be made in the source but every use of it panics. */
    constructor WithCapacity(size: u16, zero: T)
      requires 0 < size
      ensures Valid() && Contents() == Empty(size, zero)
      ensures fresh(entrySequences) && fresh(entries) && this.zero == zero
    {
      sequenceNum := 0;
      entrySequences := new Option<u16>[size](_ => None);
      entries := new T[size](_ => zero);
      this.zero := zero;
      new;
      assert entrySequences[..] == seq(size, _ => None);
      assert entries[..] == seq(size, _ => zero);
    }

    method Exists(s: u16) returns (found: bool)
      requires Valid()
      ensures found == Contents().Exists(s)
    {
      found := entrySequences[s % entrySequences.Length] == Some(s);
    }

    method Remove(s: u16) returns (value: Option<T>)
      requires Valid()
      modifies entrySequences, entries
      ensures Valid()
      ensures
        var was := old(Contents());
        && Contents() == was.Remove(s, zero)
        && value == if was.Exists(s) then Some(was.entries[was.Index(s)]) else None
    {
      value := None;
      var found := Exists(s);
      if found {
        var index := s % entrySequences.Length;
        value := Some(entries[index]);
        entries[index] := zero;
        entrySequences[index] := None;
      }
    }

    method RemoveEntries(finishSequence: u16)
      requires Valid()
      modifies entrySequences, entries
      ensures Valid()
      ensures Contents() == old(Contents().Slide(WrappingSub(finishSequence, sequenceNum), zero))
    {
      var start: nat := sequenceNum;
      var finish: nat := finishSequence;
      if finish < start {
        finish := finish + 0x1_0000;
      }
      assert finish - start == WrappingSub(finishSequence, sequenceNum);
      if finish - start < entrySequences.Length {
        RemoveRange(start, finish);
      } else {
        Clear();
      }
    }

    method RemoveRange(start: nat, finish: nat)
      requires Valid() && start == sequenceNum && 0 <= finish - start < 0x1_0000
      modifies entrySequences, entries
      ensures Valid() && Contents() == old(Contents()).Forget(finish - start + 1, zero)
    {
      ghost var was := Contents();
      assert was.Forget(0, zero) == was;
      for sequence := start to finish + 1
        invariant Valid() && Contents() == was.Forget(sequence - start, zero)
      {
        was.ForgetOneMore(sequence - start, zero);
        var _ := Remove(Wrap(sequence));
      }
    }

    method Clear()
      requires Valid()
      modifies entrySequences, entries
      ensures Valid() && Contents() == Empty(entrySequences.Length, zero).(num := sequenceNum)
    {
      for index := 0 to entrySequences.Length
        invariant forall i :: 0 <= i < index ==> entrySequences[i] == None && entries[i] == zero
      {
        entries[index] := zero;
        entrySequences[index] := None;
      }
      assert Contents() == Empty(entrySequences.Length, zero).(num := sequenceNum);
    }

    method AdvanceSequence(s: u16)
      requires Valid()
      modifies this, entrySequences, entries
      ensures Valid()
      ensures Contents() == old(Contents().Advance(s, zero))
    {
      if SequenceGreaterThan(WrappingAdd(s, 1), sequenceNum) {
        RemoveEntries(s);
        sequenceNum := WrappingAdd(s, 1);
      }
    }

    /** `accepted` stands for the source's Some. */
    method Insert(s: u16, entry: T) returns (accepted: bool)
      requires Valid()
      modifies this, entrySequences, entries
      ensures Valid()
      ensures Contents() == old(Contents().Insert(s, entry, zero))
      ensures accepted == !old(Contents().TooOld(s))
    {
      if SequenceLessThan(s, WrappingSub(sequenceNum, entrySequences.Length)) {
        return false;
      }
      AdvanceSequence(s);
      var index := s % entrySequences.Length;
      entrySequences[index] := Some(s);
      entries[index] := entry;
      accepted := true;
    }
  }
}

/** The acknowledgments that a peer enqueues against what it received. */
module AckCommands {
  import opened Numbers
  import opened Bits
  import opened Command
  import opened Acknowledgment
  import opened ReceiveHistory
  import opened AckProtocol
  import P = Processor

  /** The number that a command has the peer note, if any. */
  function NumberIn(c: Command): Option<u16> {
    match c
    case Acknowledge(number, _, _) => Some(number)
    case SendReliable(_, number, _, _) => Some(number)
    case SendFragment(_, number, _, _, _, _) => Some(number)
    case _ => None
  }

  /** A step with the absolute number of its command, if that has one. */
  datatype Counted = Counted(step: P.Step, number: nat) {
    predicate Valid() { NumberIn(step.command).Some? ==> NumberIn(step.command).value == Wrap(number) }
  }

  function Noting(h: History<ReceivedPacket>, n: Counted): History<ReceivedPacket>
    requires h.Sized()
    ensures Noting(h, n).Sized()
  {
    if NumberIn(n.step.command).Some? then h.Arrive(n.number, ReceivedPacket, ReceivedPacket) else h
  }

  /** Every number that comes in is near the newest one of its time. */
  ghost predicate NearRun(h: History<ReceivedPacket>, ns: seq<Counted>)
    requires h.Sized()
    decreases |ns|
  {
    ns == []
    || (ns[0].Valid() && (NumberIn(ns[0].step.command).Some? ==> h.Near(ns[0].number))
        && NearRun(Noting(h, ns[0]), ns[1..]))
  }

  /** The acknowledgment names the newest number received and, by each bit of its mask, one that was received; and every
      one of the window, as long as the history is exact. */
  ghost predicate IsTrue(c: Command, h: History<ReceivedPacket>)
    requires c.Acknowledge?
  {
    && c.number == Wrap(h.next - 1) && (h.next > 0 ==> h.next - 1 in h.accepted)
    && exists bits: Word :: IsMaskOf(bits, c.receivedMask, h)
  }

  /** The bits that the mask stands for, of which there is one word only, tell the truth. */
  ghost predicate IsMaskOf(bits: Word, mask: u32, h: History<ReceivedPacket>) {
    ToU32(bits) == mask && BitsAreTrue(bits, h) && (h.Sized() && h.Exact() ==> BitsAreAll(bits, h))
  }

  /** Every number of the window that was received has its bit. */
  ghost predicate BitsAreAll(bits: Word, h: History<ReceivedPacket>) {
    forall j :: 0 <= j < 32 && 0 <= h.next - 2 - j && h.next - 2 - j in h.accepted ==> bits[j]
  }

  /** Bit `j` names the number `j + 1` before the newest. */
  ghost predicate BitsAreTrue(bits: Word, h: History<ReceivedPacket>) {
    forall j :: 0 <= j < 32 && bits[j] ==> 0 <= h.next - 2 - j && h.next - 2 - j in h.accepted
  }

  ghost predicate AllTrue(cs: seq<Command>, h: History<ReceivedPacket>) {
    forall k :: 0 <= k < |cs| && cs[k].Acknowledge? ==> IsTrue(cs[k], h)
  }

  /** Over the run, each acknowledgment enqueued is true of what was received by then. */
  ghost predicate RunIsTrue(i: P.ValidInbox, h: History<ReceivedPacket>, ns: seq<Counted>)
    requires h.Sized()
    decreases |ns|
  {
    ns == []
    || (AllTrue(i.Replies(ns[0].step.command, ns[0].step.around), Noting(h, ns[0]))
        && RunIsTrue(P.Next(i, ns[0].step), Noting(h, ns[0]), ns[1..]))
  }

  /** The ring of the peer is that of the history. */
  ghost predicate Knows(i: P.ValidInbox, h: History<ReceivedPacket>) { h.Sound() && h.ring == i.acks.received }

  lemma MaskIsTrue(acks: Handler, h: History<ReceivedPacket>)
    requires acks.Valid() && h.Sound() && h.ring == acks.received
    ensures BitsAreTrue(acks.AckBitfield(), h)
  {
    forall j | 0 <= j < 32 && acks.AckBitfield()[j] ensures 0 <= h.next - 2 - j && h.next - 2 - j in h.accepted {
      BitNamesAccepted(acks, h, j + 1);
    }
  }

  lemma MaskIsAll(acks: Handler, h: History<ReceivedPacket>)
    requires acks.Valid() && h.Sound() && h.Exact() && h.ring == acks.received
    ensures BitsAreAll(acks.AckBitfield(), h)
  {
    WrapMinusOne(h.next);
    forall j | 0 <= j < 32 && 0 <= h.next - 2 - j && h.next - 2 - j in h.accepted ensures acks.AckBitfield()[j] {
      var back: int := j + 1;
      WrapPlus(h.next - 1, -back);
      assert h.InWindow(h.next - 2 - j);
      assert acks.AckBitfield()[j] == acks.received.Exists(Wrap(acks.RemoteSequenceNum() - (j + 1)));
    }
  }

  lemma AckIsTrue(i: P.ValidInbox, h: History<ReceivedPacket>, sentTime: Option<u32>)
    requires Knows(i, h)
    ensures IsTrue(i.AckCommand(sentTime), h)
  {
    MaskIsTrue(i.acks, h);
    if h.Exact() {
      MaskIsAll(i.acks, h);
    }
    WrapMinusOne(h.next);
    assert IsMaskOf(i.acks.AckBitfield(), i.AckCommand(sentTime).receivedMask, h);
  }

  lemma NotingKnows(i: P.ValidInbox, h: History<ReceivedPacket>, n: Counted, mask: u32)
    requires Knows(i, h) && n.Valid() && NumberIn(n.step.command).Some? && h.Near(n.number)
    ensures Knows(i.Ack(NumberIn(n.step.command).value, mask), Noting(h, n))
  {
    ArrivalKeepsSound(h, n.number, ReceivedPacket, ReceivedPacket);
  }

  lemma OnlyNumbersTouchAcks(i: P.ValidInbox, step: P.Step)
    requires NumberIn(step.command).None?
    ensures P.Next(i, step).acks == i.acks
    ensures forall k :: 0 <= k < |i.Replies(step.command, step.around)| ==>
      !i.Replies(step.command, step.around)[k].Acknowledge?
  {
  }

  lemma NumbersNote(i: P.ValidInbox, step: P.Step)
    requires NumberIn(step.command).Some?
    ensures
      var c := step.command;
      P.Next(i, step).acks
        == i.Ack(NumberIn(c).value, if c.Acknowledge? then c.receivedMask else 0).acks
  {
  }

  lemma NumbersReply(i: P.ValidInbox, step: P.Step)
    requires NumberIn(step.command).Some?
    ensures
      var replies := i.Replies(step.command, step.around);
      replies == [] || replies == [i.Ack(NumberIn(step.command).value, 0).AckCommand(None)]
  {
  }

  lemma OneTrue(c: Command, h: History<ReceivedPacket>)
    requires c.Acknowledge? && IsTrue(c, h)
    ensures AllTrue([c], h) && AllTrue([], h)
  {
  }

  lemma NumberedStepIsTrue(i: P.ValidInbox, h: History<ReceivedPacket>, n: Counted)
    requires Knows(i, h) && n.Valid() && NumberIn(n.step.command).Some? && h.Near(n.number)
    ensures AllTrue(i.Replies(n.step.command, n.step.around), Noting(h, n))
  {
    var acked := i.Ack(NumberIn(n.step.command).value, 0);
    NotingKnows(i, h, n, 0);
    AckIsTrue(acked, Noting(h, n), None);
    NumbersReply(i, n.step);
    OneTrue(acked.AckCommand(None), Noting(h, n));
  }

  lemma NumberedStepKnows(i: P.ValidInbox, h: History<ReceivedPacket>, n: Counted)
    requires Knows(i, h) && n.Valid() && NumberIn(n.step.command).Some? && h.Near(n.number)
    ensures Knows(P.Next(i, n.step), Noting(h, n))
  {
    NotingKnows(i, h, n, if n.step.command.Acknowledge? then n.step.command.receivedMask else 0);
    NumbersNote(i, n.step);
  }

  lemma StepIsTrue(i: P.ValidInbox, h: History<ReceivedPacket>, n: Counted)
    requires Knows(i, h) && n.Valid() && (NumberIn(n.step.command).Some? ==> h.Near(n.number))
    ensures AllTrue(i.Replies(n.step.command, n.step.around), Noting(h, n))
    ensures Knows(P.Next(i, n.step), Noting(h, n))
  {
    if NumberIn(n.step.command).None? {
      OnlyNumbersTouchAcks(i, n.step);
    } else {
      NumberedStepIsTrue(i, h, n);
      NumberedStepKnows(i, h, n);
    }
  }

  /** Over every run of commands whose numbers come in near the newest, across wraps: each acknowledgment that the peer
      enqueues names only what it received by then, and in its window all of it while the ring is exact, whatever other
      commands come in between. */
  lemma {:induction false} AcknowledgmentsAreTrue(i: P.ValidInbox, h: History<ReceivedPacket>, ns: seq<Counted>)
    requires Knows(i, h) && NearRun(h, ns)
    ensures RunIsTrue(i, h, ns)
    decreases |ns|
  {
    if ns != [] {
      StepIsTrue(i, h, ns[0]);
      AcknowledgmentsAreTrue(P.Next(i, ns[0].step), Noting(h, ns[0]), ns[1..]);
    }
  }

  /** And a reliable command is answered by one at once. */
  lemma ReliableIsAnswered(i: P.ValidInbox, step: P.Step)
    requires step.command.SendReliable?
    ensures
      var replies := i.Replies(step.command, step.around);
      |replies| == 1 && replies[0].Acknowledge?
  {
  }
}

/** The connection handshake: which Connect is answered, and when the answer is accepted. */
module Handshake {
  import opened Numbers
  import opened Command
  import opened Processor

  /** The commands of a run that the peer answers with a VerifyConnect. */
  function Answered(i: ValidInbox, steps: seq<Step>): seq<Command>
    decreases |steps|
  {
    if steps == [] then []
    else
      var c := steps[0].command;
      (if HasVerification(i.Replies(c, steps[0].around)) then [c] else []) + Answered(Next(i, steps[0]), steps[1..])
  }

  predicate HasVerification(replies: seq<Command>) { exists k :: 0 <= k < |replies| && replies[k].VerifyConnect? }

  /** The first Connect of a run, if no Disconnect comes before it. */
  function FirstConnect(steps: seq<Step>): Option<Command>
    decreases |steps|
  {
    if steps == [] || steps[0].command.Disconnect? then None
    else if steps[0].command.Connect? then Some(steps[0].command)
    else FirstConnect(steps[1..])
  }

  lemma AnswersIff(i: ValidInbox, step: Step)
    ensures HasVerification(i.Replies(step.command, step.around)) <==> step.command.Connect? && i.state == Idle
  {
    var replies := i.Replies(step.command, step.around);
    if step.command.Connect? && i.state == Idle {
      assert replies[0].VerifyConnect?;
    }
  }

  lemma IdleEnds(i: ValidInbox, step: Step)
    ensures i.state != Idle ==> Next(i, step).state != Idle
    ensures i.state == Idle ==> (Next(i, step).state == Idle <==> !step.command.Connect? && !step.command.Disconnect?)
  {
  }

  lemma {:induction false} NoneAnswered(i: ValidInbox, steps: seq<Step>)
    requires i.state != Idle
    ensures Answered(i, steps) == []
    decreases |steps|
  {
    if steps != [] {
      AnswersIff(i, steps[0]);
      IdleEnds(i, steps[0]);
      NoneAnswered(Next(i, steps[0]), steps[1..]);
    }
  }

  /** Over every run a peer answers at most one Connect: exactly the first, if the peer is idle and no
      Disconnect came before. */
  lemma {:induction false} OnlyFirstConnectIsAnswered(i: ValidInbox, steps: seq<Step>)
    ensures Answered(i, steps)
      == if i.state == Idle && FirstConnect(steps).Some? then [FirstConnect(steps).value] else []
    decreases |steps|
  {
    if i.state != Idle {
      NoneAnswered(i, steps);
    } else if steps != [] {
      AnswersIff(i, steps[0]);
      IdleEnds(i, steps[0]);
      if Next(i, steps[0]).state == Idle {
        OnlyFirstConnectIsAnswered(Next(i, steps[0]), steps[1..]);
      } else {
        NoneAnswered(Next(i, steps[0]), steps[1..]);
      }
    }
  }

  /** The ids that a peer keeps are those of that first Connect, whatever comes after it. */
  lemma {:induction false} FirstConnectIsKept(i: ValidInbox, steps: seq<Step>)
    requires i.state == Idle && FirstConnect(steps).Some?
    ensures
      var j, c := After(i, steps), FirstConnect(steps).value;
      c.Connect? && j.incomingSessionId == c.outgoingSessionId && j.connectId == c.connectId
    decreases |steps|
  {
    var step := steps[0];
    FirstOfRun(i, steps);
    IdleEnds(i, step);
    if step.command.Connect? {
      IdsStay(Next(i, step), steps[1..]);
    } else {
      FirstConnectIsKept(Next(i, step), steps[1..]);
    }
  }

  lemma {:induction false} IdsStay(i: ValidInbox, steps: seq<Step>)
    requires i.state != Idle && i.state != Connecting
    ensures After(i, steps).incomingSessionId == i.incomingSessionId && After(i, steps).connectId == i.connectId
    decreases |steps|
  {
    if steps != [] {
      FirstOfRun(i, steps);
      OneStepKeepsIds(i, steps[0]);
      IdsStay(Next(i, steps[0]), steps[1..]);
    } else {
      assert After(i, []) == i;
    }
  }

  lemma OneStepKeepsIds(i: ValidInbox, step: Step)
    requires i.state != Idle && i.state != Connecting
    ensures
      var j := Next(i, step);
      && j.state != Idle && j.state != Connecting
      && j.incomingSessionId == i.incomingSessionId && j.connectId == i.connectId
  {
    StepMovesState(i, step);
    StepKeepsIds(i, step);
  }

  lemma StepKeepsIds(i: ValidInbox, step: Step)
    requires i.state != Connecting && i.state != Idle
    ensures Next(i, step).incomingSessionId == i.incomingSessionId && Next(i, step).connectId == i.connectId
  {
  }

  /** The formal handshake, exactly: what an idle server answers to a client's greeting makes the client succeed if
      and only if the two sides happen to have drawn the same session id; otherwise the client rejects it. */
  lemma HandshakeSucceedsIff(client: ValidInbox, server: ValidInbox, s: Surroundings, t: Surroundings)
    requires client.state == Idle && server.state == Idle && client.config.useConnectionHandshake
    ensures |client.Greeting()| == 1
    ensures
      var greeting := client.Greeting()[0];
      var waiting := client.RecordSend();
      && |server.Replies(greeting, s)| == 1
      && (waiting.After(server.Replies(greeting, s)[0], t).state == ConnectionSucceeded <==>
            client.outgoingSessionId == server.outgoingSessionId)
      && (waiting.Rejects(server.Replies(greeting, s)[0]) <==> client.outgoingSessionId != server.outgoingSessionId)
  {
  }
}

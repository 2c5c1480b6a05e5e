/**
  Agent.Step as a whole (internal/agent/agent.go): the stop channel is captured, the
  orphans of earlier sessions are recovered, and the turns run.
*/
module AgentStep {
  import opened Wrappers
  import opened ToolRound
  import opened Rounds
  import opened Orphans
  import opened StepRound

  /**
    Step on the prepared messages. The model sees them recovered; what it returns are
    the messages of its turns alone. A listener has seen the recovered results first and
    then everything Step delivered, in that order.
  */
  method Step(a: Agent, messages: seq<Message>, maxSteps: int, script: Script)
    returns (newMsgs: seq<Message>, exit: Exit, turn: nat, ghost seen: seq<Message>, ghost inserted: seq<Message>,
             ghost due: seq<Message>, ghost log: seq<Segment>, ghost last: seq<Message>)
    requires script.Ok()
    modifies a`stopCh, a.stopCh, a`acts, a`ran, a`emitted
    ensures Recovers(messages, inserted, seen)
    ensures newMsgs == Transcript(log) + last && due == script.Before(turn)
    ensures Guarded(old(a.acts), a.acts) && forall j: nat | j < turn :: script.GoesOn(j)
    ensures turn <= (if maxSteps <= 0 then 100 else maxSteps)
    ensures exit.LimitReached? ==> turn == if maxSteps <= 0 then 100 else maxSteps
    ensures a.Over(exit, script, Limit(maxSteps), turn, due, log, last, old(a.emitted) + Heard(a.hears, inserted), old(a.stopCh))
  {
    var ch := a.stopCh;
    seen, inserted := RecoverOrphanedToolCalls(a, messages, ch);
    newMsgs, exit, turn, due, log, last := a.Turns(Limit(maxSteps), script, ch, a.emitted);
  }
}

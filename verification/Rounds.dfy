/**
  What a tool round leaves in the transcript, and what that guarantees
  (internal/agent/agent.go): every way out of the round answers every call once.
*/
module Rounds {
  import opened Wrappers
  import opened JsonKeys
  import opened ToolRound

  /** What became of the round. */
  datatype Next = Stopped | Paused | Done | Continue

  /** Why Step returned. */
  datatype Exit = Interrupted | Errored | LimitReached | Asked | Finished

  const SentinelPermissionAsk := "PERMISSION_ASK:"
  const SentinelQuestionPrompt := "QUESTION_PROMPT:"
  const SentinelWaitingForUser := "WAITING_FOR_USER_RESPONSE"

  predicate Contains(s: string, part: string) {
    exists i | 0 <= i <= |s| :: part <= s[i..]
  }

  /** A dialog the user has not answered yet. */
  predicate UnansweredAsk(content: Content) {
    content.Text? &&
    (SentinelPermissionAsk <= content.text
     || (SentinelQuestionPrompt <= content.text && Contains(content.text, SentinelWaitingForUser)))
  }

  /** A permission request always is one; a prompt is one as long as it says that it waits for the user. */
  lemma WhatIsAnAsk(text: string, before: string, after: string)
    ensures UnansweredAsk(Text("PERMISSION_ASK:" + text))
    ensures UnansweredAsk(Text("QUESTION_PROMPT:" + before + "WAITING_FOR_USER_RESPONSE" + after))
    ensures UnansweredAsk(Text(text)) ==> "PERMISSION_ASK:" <= text || "QUESTION_PROMPT:" <= text
    ensures UnansweredAsk(Text(text)) && !("PERMISSION_ASK:" <= text) ==>
              exists i | 0 <= i <= |text| :: "WAITING_FOR_USER_RESPONSE" <= text[i..]
    ensures !UnansweredAsk(ToolCancelled)
  {
    var head := "QUESTION_PROMPT:" + before;
    var whole := head + "WAITING_FOR_USER_RESPONSE" + after;
    assert whole[|head|..] == "WAITING_FOR_USER_RESPONSE" + after;
    assert "QUESTION_PROMPT:" <= whole;
  }

  function Rejection(calls: seq<ToolCall>, rejected: map<nat, nat>, rs: seq<Message>, j: nat): Message
    requires j < |calls| && j in rejected && rejected[j] < |rs|
  {
    Reply(calls[j].id, RejectedDuplicate(calls[j].name, rs[rejected[j]].toolId, rs[rejected[j]].content))
  }

  /** Every rejected call answers with its winner's result. */
  predicate PointAtWinners(calls: seq<ToolCall>, rejected: map<nat, nat>, rs: seq<Message>) {
    |rs| == |calls| && forall j | j in rejected ::
      j < |rs| && rejected[j] < |rs| && rs[j] == Rejection(calls, rejected, rs, j)
  }

  /** A round that was left: the slots, what precedes the results and what was published. */
  datatype Outcome = Outcome(rejected: map<nat, nat>, head: seq<Message>, rs: seq<Message>, sent: seq<Message>) {
    ghost function Tail(): seq<Message> {
      head + sent
    }

    /** Everything was published, in call order, duplicates pointing at their winners. */
    ghost predicate Completed(calls: seq<ToolCall>) {
      && sent == rs
      && |rs| == |calls|
      && (forall i | 0 <= i < |rs| :: rs[i].role.Tool? && rs[i].toolId == calls[i].id)
      && PointAtWinners(calls, rejected, rs)
    }

    ghost predicate Asks() {
      exists i :: 0 <= i < |rs| && UnansweredAsk(rs[i].content)
    }

    /** Completed, or closed after some leading results had been published. */
    ghost predicate Fits(calls: seq<ToolCall>, handoff: Option<Message>) {
      && (rs == [] || Slots(calls, rs))
      && (head == [] || (handoff.Some? && head == [handoff.value]))
      && (Completed(calls) || ClosedAfterSome(calls))
    }

    /** Some leading results were published before the round was closed. */
    ghost predicate ClosedAfterSome(calls: seq<ToolCall>) {
      exists k: nat :: k <= |rs| && sent == rs[..k] + CancelTail(calls, rs, k) && Zero !in rs[..k]
    }
  }

  /** One step of the transcript: a message of its own or an assistant message with its answers. */
  datatype Segment =
    | Plain(m: Message)
    | Round(resp: Message, handoff: Option<Message>, outcome: Outcome)
  {
    ghost function Messages(): seq<Message> {
      match this
      case Plain(m) => [m]
      case Round(resp, _, outcome) => [resp] + outcome.Tail()
    }

    ghost predicate Ok() {
      match this
      case Plain(m) => m.calls == []
      case Round(resp, handoff, outcome) => outcome.Fits(resp.calls, handoff) && (handoff.Some? ==> handoff.value.role.System?)
    }
  }

  /** A message of its own, or a round that was completed and leaves no question to the user. */
  ghost predicate Calm(segment: Segment) {
    match segment
    case Plain(_) => true
    case Round(resp, _, outcome) => outcome.Completed(resp.calls) && !outcome.Asks()
  }

  ghost predicate AllCalm(log: seq<Segment>) {
    forall k | 0 <= k < |log| :: Calm(log[k])
  }

  ghost function Front(log: seq<Segment>): seq<Segment> {
    if log == [] then [] else log[..|log| - 1]
  }

  /** What follows the opening message of the last segment. */
  ghost function Answered(log: seq<Segment>): seq<Message> {
    if log == [] || log[|log| - 1].Plain? then [] else log[|log| - 1].outcome.Tail()
  }

  ghost function Transcript(log: seq<Segment>): seq<Message> {
    if log == [] then [] else Transcript(log[..|log| - 1]) + log[|log| - 1].Messages()
  }

  /** The message that opens a segment. */
  ghost function Opening(segment: Segment): Message {
    match segment
    case Plain(m) => m
    case Round(resp, _, _) => resp
  }

  /** The transcript without what answers the calls. */
  ghost function Openings(log: seq<Segment>): seq<Message> {
    if log == [] then [] else Openings(log[..|log| - 1]) + [Opening(log[|log| - 1])]
  }

  lemma LogMore(log: seq<Segment>, last: Segment)
    ensures Openings(log + [last]) == Openings(log) + [Opening(last)]
    ensures Transcript(log + [last]) == Transcript(log) + last.Messages()
    ensures Front(log + [last]) == log && (AllCalm(log + [last]) <==> AllCalm(log) && Calm(last))
  {
    assert (log + [last])[..|log|] == log;
  }

  /** The last round of the transcript ended with a question to the user. */
  ghost predicate AsksLast(log: seq<Segment>) {
    log != [] && log[|log| - 1].Round? && log[|log| - 1].outcome.Asks()
  }

  /** What comes from outside at each turn: queued messages, the model's reply or its failure, an advisor's review. */
  datatype Script = Script(queue: nat -> seq<Content>, model: nat -> Option<Message>, review: nat -> Option<Content>) {
    ghost predicate Ok() {
      forall i :: model(i).Some? ==> model(i).value.role.Assistant?
    }

    /** A turn up to the model's reply, after what came before. */
    ghost function Begun(due: seq<Message>, i: nat): seq<Message> {
      due + FromUser(queue(i))
    }

    ghost function Replied(due: seq<Message>, i: nat): seq<Message>
      requires model(i).Some?
    {
      Begun(due, i) + [model(i).value]
    }

    ghost function Reviewed(due: seq<Message>, i: nat): seq<Message>
      requires model(i).Some?
    {
      Replied(due, i) + ReviewOf(review(i))
    }

    /** A turn that does not end Step by itself: its reply asks for calls or was sent back by a review. */
    ghost predicate GoesOn(i: nat) {
      model(i).Some? && (model(i).value.calls != [] || review(i).Some?)
    }

    /** All turns before i, complete. */
    ghost function Before(i: nat): seq<Message> {
      if i == 0 then [] else if model(i - 1).None? then Before(i - 1) else Reviewed(Before(i - 1), i - 1)
    }

    lemma NextTurn(i: nat)
      requires model(i).Some?
      ensures Before(i + 1) == Reviewed(Before(i), i)
    {
    }
  }

  function ReviewOf(review: Option<Content>): seq<Message> {
    if review.Some? then [Message(User, "", review.value, [])] else []
  }

  lemma FromUserMore(texts: seq<Content>, i: nat)
    requires i < |texts|
    ensures FromUser(texts[..i + 1]) == FromUser(texts[..i]) + [Message(User, "", texts[i], [])]
  {
    assert texts[..i + 1][..i] == texts[..i];
  }

  function FromUser(texts: seq<Content>): seq<Message> {
    if texts == [] then [] else FromUser(texts[..|texts| - 1]) + [Message(User, "", texts[|texts| - 1], [])]
  }

  lemma RoundLogged(newMsgs: seq<Message>, log: seq<Segment>, resp: Message, handoff: Option<Message>, round: Outcome)
    requires newMsgs == Transcript(log) && LogOk(log) && Round(resp, handoff, round).Ok()
    ensures (newMsgs + [resp]) + round.Tail() == Transcript(log + [Round(resp, handoff, round)])
    ensures LogOk(log + [Round(resp, handoff, round)]) && Openings(log + [Round(resp, handoff, round)]) == Openings(log) + [resp]
  {
    LogMore(log, Round(resp, handoff, round));
    Assoc(newMsgs, [resp], round.Tail());
  }

  /** maxSteps, or 100 when none is set. */
  function Limit(maxSteps: int): (n: nat)
    ensures n > 0
  {
    if maxSteps <= 0 then 100 else maxSteps
  }

  ghost predicate LogOk(log: seq<Segment>) {
    forall k | 0 <= k < |log| :: log[k].Ok()
  }

  // ----- What every way out of a round guarantees

  lemma HeadAnswersNothing(head: seq<Message>, handoff: Option<Message>, id: string)
    requires head == [] || (handoff.Some? && head == [handoff.value] && handoff.value.role.System?)
    ensures Replies(head, id) == 0
  {
    if head != [] {
      SingleReply(handoff.value, id);
    }
  }

  /** With proper ids, each call of the message has exactly one tool message in what was published. */
  lemma RoundAnswersEachCallOnce(round: Outcome, calls: seq<ToolCall>, handoff: Option<Message>)
    requires round.Fits(calls, handoff) && Proper(calls) && (handoff.Some? ==> handoff.value.role.System?)
    ensures Answers(calls, round.Tail())
  {
    forall id | id != ""
      ensures Replies(round.Tail(), id) == if id in Ids(calls) then 1 else 0
    {
      RepliesConcat(round.head, round.sent, id);
      HeadAnswersNothing(round.head, handoff, id);
      if round.Completed(calls) {
        SlotsAnswerOnce(calls, round.rs, |calls|, id);
        assert round.rs[..|calls|] == round.rs;
        assert id in Ids(calls) <==> exists i :: 0 <= i < |calls| && calls[i].id == id;
        assert forall i | 0 <= i < |calls| :: round.rs[i] != Zero;
      } else {
        var k: nat :| k <= |round.rs| && round.sent == round.rs[..k] + CancelTail(calls, round.rs, k);
        CancelledRoundAnswersOnce(calls, round.rs, k);
      }
    }
  }

  /** Whatever the ids: no call with an id is left without an answer. */
  lemma RoundLeavesNoOrphan(round: Outcome, calls: seq<ToolCall>, handoff: Option<Message>)
    requires round.Fits(calls, handoff) && (handoff.Some? ==> handoff.value.role.System?)
    ensures forall id | id in Ids(calls) && id != "" :: Replies(round.Tail(), id) >= 1
  {
    forall id | id in Ids(calls) && id != ""
      ensures Replies(round.Tail(), id) >= 1
    {
      RepliesConcat(round.head, round.sent, id);
      if round.Completed(calls) {
        var i :| 0 <= i < |calls| && calls[i].id == id;
        AnsweredIffReplies(round.rs, id);
        assert IsReply(round.rs[i]);
      } else {
        var k: nat :| k <= |round.rs| && round.sent == round.rs[..k] + CancelTail(calls, round.rs, k);
        CancelledRoundHasNoOrphan(calls, round.rs, k);
      }
    }
  }

  lemma PublishedSlotIsTool(calls: seq<ToolCall>, rs: seq<Message>, k: nat, m: Message)
    requires rs == [] || Slots(calls, rs)
    requires k <= |rs| && Zero !in rs[..k] && m in rs[..k]
    ensures m.role.Tool?
  {
    var i :| 0 <= i < k && m == rs[i];
    assert SlotOf(calls[i], rs[i]);
  }

  lemma ClosedRoundPublishesTools(calls: seq<ToolCall>, rs: seq<Message>, k: nat, m: Message)
    requires rs == [] || Slots(calls, rs)
    requires k <= |rs| && Zero !in rs[..k] && m in rs[..k] + CancelTail(calls, rs, k)
    ensures m.role.Tool?
  {
    if m in rs[..k] {
      PublishedSlotIsTool(calls, rs, k, m);
    } else {
      PublishableKeepsMembers(rs[k..] + Placeholders(calls, AnsweredIds(rs)), m);
    }
  }

  /** No empty slot is ever published. */
  lemma RoundPublishesNoEmptySlot(round: Outcome, calls: seq<ToolCall>, handoff: Option<Message>)
    requires round.Fits(calls, handoff) && (handoff.Some? ==> handoff.value.role.System?)
    ensures forall m | m in round.Tail() :: m.role.System? || m.role.Tool?
  {
    forall m | m in round.Tail()
      ensures m.role.System? || m.role.Tool?
    {
      if m in round.head {
        assert m == handoff.value;
      } else if round.Completed(calls) {
        var i :| 0 <= i < |round.rs| && m == round.rs[i];
      } else {
        var k: nat :| k <= |round.rs| && round.sent == round.rs[..k] + CancelTail(calls, round.rs, k) && Zero !in round.rs[..k];
        ClosedRoundPublishesTools(calls, round.rs, k, m);
      }
    }
  }

  /** Work that finished keeps its result; a call that never ran is answered as cancelled. */
  lemma RoundKeepsRealResults(round: Outcome, calls: seq<ToolCall>, handoff: Option<Message>, i: nat)
    requires round.Fits(calls, handoff) && Proper(calls) && round.rs != [] && i < |round.rs|
    ensures round.rs[i] != Zero ==> round.rs[i] in round.Tail()
    ensures round.rs[i] == Zero ==> Reply(calls[i].id, ToolCancelled) in round.Tail()
  {
    if !round.Completed(calls) {
      var k: nat :| k <= |round.rs| && round.sent == round.rs[..k] + CancelTail(calls, round.rs, k) && Zero !in round.rs[..k];
      CancelKeepsRealResults(calls, round.rs, k, i);
    }
  }

  // ----- Whole transcripts

  /** A message that asks for calls, and where it stands. */
  ghost predicate AsksAt(msgs: seq<Message>, p: nat) {
    p < |msgs| && msgs[p].role.Assistant? && msgs[p].calls != []
  }

  ghost predicate AnsweredWithin(msgs: seq<Message>, p: nat, n: nat)
    requires p < |msgs|
  {
    p + 1 + n <= |msgs| && Answers(msgs[p].calls, msgs[p + 1..p + 1 + n])
  }

  /** Some messages right behind position p answer its calls, once each. */
  ghost predicate AnsweredAt(msgs: seq<Message>, p: nat)
    requires p < |msgs|
  {
    exists n :: AnsweredWithin(msgs, p, n)
  }

  lemma AnsweredStays(msgs: seq<Message>, more: seq<Message>, p: nat)
    requires p < |msgs| && AnsweredAt(msgs, p)
    ensures AnsweredAt(msgs + more, p)
  {
    var n :| AnsweredWithin(msgs, p, n);
    assert (msgs + more)[p + 1..p + 1 + n] == msgs[p + 1..p + 1 + n];
    assert AnsweredWithin(msgs + more, p, n);
  }

  lemma RoundIsAnswered(before: seq<Message>, resp: Message, handoff: Option<Message>, outcome: Outcome, p: nat)
    requires Round(resp, handoff, outcome).Ok()
    requires |before| <= p && AsksAt(before + ([resp] + outcome.Tail()), p)
    requires Proper((before + ([resp] + outcome.Tail()))[p].calls)
    ensures AnsweredAt(before + ([resp] + outcome.Tail()), p)
  {
    var msgs, tail := before + ([resp] + outcome.Tail()), outcome.Tail();
    RoundPublishesNoEmptySlot(outcome, resp.calls, handoff);
    if p == |before| {
      RoundAnswersEachCallOnce(outcome, resp.calls, handoff);
      assert msgs[p + 1..p + 1 + |tail|] == tail;
      assert AnsweredWithin(msgs, p, |tail|);
    }
  }

  /** In a whole transcript every message that asks for calls has them answered right behind it. */
  lemma {:induction false} EveryAskIsAnswered(log: seq<Segment>, p: nat)
    requires LogOk(log) && AsksAt(Transcript(log), p) && Proper(Transcript(log)[p].calls)
    ensures AnsweredAt(Transcript(log), p)
  {
    var init, last := log[..|log| - 1], log[|log| - 1];
    var before := Transcript(init);
    assert last.Ok();
    if p < |before| {
      EveryAskIsAnswered(init, p);
      AnsweredStays(before, last.Messages(), p);
    } else {
      match last
      case Plain(_) =>
      case Round(resp, handoff, outcome) => RoundIsAnswered(before, resp, handoff, outcome, p);
    }
  }

  /** What the step limit may leave behind a transcript: a summary request and its reply, never executed. */
  ghost predicate LimitEnd(last: seq<Message>) {
    || last == []
    || (|last| <= 2 && last[0].role.User? && last[0].calls == [] && (|last| == 2 ==> last[1].role.Assistant?))
  }

  /** Only the reply at the step limit can ask for calls that nobody answers. */
  lemma OnlyTheLimitReplyIsExempt(log: seq<Segment>, last: seq<Message>, p: nat)
    requires LogOk(log) && LimitEnd(last)
    requires AsksAt(Transcript(log) + last, p) && Proper((Transcript(log) + last)[p].calls)
    ensures AnsweredAt(Transcript(log) + last, p) || (|last| == 2 && p == |Transcript(log)| + 1)
  {
    if p < |Transcript(log)| {
      EveryAskIsAnswered(log, p);
      AnsweredStays(Transcript(log), last, p);
    } else {
      assert (Transcript(log) + last)[p] == last[p - |Transcript(log)|];
    }
  }

  /**
    Why Step ended in turn i, and how much of the script it has used: due is what the
    turns before contributed.
  */
  ghost predicate Ended(exit: Exit, script: Script, limit: nat, i: nat, due: seq<Message>, log: seq<Segment>, last: seq<Message>) {
    && i <= limit && LogOk(log) && LimitEnd(last) && AllCalm(Front(log))
    && (exit.Errored? || exit.LimitReached? || exit.Finished? ==> AllCalm(log))
    && match exit
       case Interrupted =>
         || Openings(log) == due
         || Openings(log) == script.Begun(due, i)
         || (script.model(i).Some? && (Openings(log) == script.Replied(due, i) || Openings(log) == script.Reviewed(due, i)))
       case Errored => script.model(i).None? && Openings(log) == script.Begun(due, i)
       case LimitReached =>
         i == limit && Openings(log) == script.Begun(due, i) && |last| == 2 && script.model(i) == Some(last[1])
       case Asked => last == [] && i < limit && AsksLast(log) && EndsWithReply(script, due, i, log)
       case Finished =>
         && last == [] && i < limit && EndsWithReply(script, due, i, log)
         && script.model(i).value.calls == [] && script.review(i).None?
  }

  lemma FrontIsCalm(log: seq<Segment>)
    requires AllCalm(log)
    ensures AllCalm(Front(log))
  {
  }

  lemma FinishedEnds(script: Script, limit: nat, i: nat, due: seq<Message>, log: seq<Segment>)
    requires i < limit && script.model(i).Some? && script.model(i).value.calls == [] && script.review(i).None?
    requires LogOk(log) && AllCalm(log) && Openings(log) == script.Replied(due, i)
    ensures Ended(Finished, script, limit, i, due, log, [])
  {
    FrontIsCalm(log);
  }

  lemma CutEnds(script: Script, limit: nat, i: nat, due: seq<Message>, log: seq<Segment>)
    requires i < limit && script.model(i).Some? && LogOk(log) && AllCalm(Front(log))
    requires Openings(log) == script.Begun(due, i) || Openings(log) == script.Replied(due, i) || Openings(log) == script.Reviewed(due, i)
    ensures Ended(Interrupted, script, limit, i, due, log, [])
  {
  }

  lemma AskedEnds(script: Script, limit: nat, i: nat, due: seq<Message>, log: seq<Segment>)
    requires i < limit && script.model(i).Some? && LogOk(log) && AllCalm(Front(log)) && AsksLast(log)
    requires Openings(log) == script.Replied(due, i)
    ensures Ended(Asked, script, limit, i, due, log, [])
  {
  }

  lemma ReviewedIs(script: Script, due: seq<Message>, i: nat)
    requires script.model(i).Some?
    ensures script.Reviewed(due, i) == script.Replied(due, i) + ReviewOf(script.review(i))
    ensures script.review(i).None? ==> script.Reviewed(due, i) == script.Replied(due, i)
    ensures script.Replied(due, i) + [] == script.Replied(due, i)
  {
  }

  ghost predicate EndsWithReply(script: Script, due: seq<Message>, i: nat, log: seq<Segment>) {
    script.model(i).Some? && Openings(log) == script.Replied(due, i)
  }

  /** What a listener has seen of an uninterrupted Step: all but the summary request. */
  ghost function Delivered(exit: Exit, log: seq<Segment>, last: seq<Message>): seq<Message> {
    if exit.LimitReached? && |last| == 2 then Transcript(log) + [last[1]] else Transcript(log)
  }
}

/**
  Orphan recovery (recoverOrphanedToolCalls, internal/agent/agent.go): the calls of
  the last asking message that nobody answered are run again and their results
  inserted behind its tool block.
*/
module Orphans {
  import opened Wrappers
  import opened JsonKeys
  import opened ToolRound
  import opened Rounds
  import StepRound

  predicate Asks(m: Message) {
    m.role.Assistant? && m.calls != []
  }

  /** The last message that asks for calls. */
  function LastAsk(msgs: seq<Message>): (r: Option<nat>)
    ensures r.Some? ==> r.value < |msgs| && Asks(msgs[r.value]) && forall i | r.value < i < |msgs| :: !Asks(msgs[i])
    ensures r.None? ==> forall i | 0 <= i < |msgs| :: !Asks(msgs[i])
  {
    if msgs == [] then None
    else if Asks(msgs[|msgs| - 1]) then Some(|msgs| - 1)
    else LastAsk(msgs[..|msgs| - 1])
  }

  /** Distinct, non-empty ids nobody answered, in call order. */
  function Unanswered(calls: seq<ToolCall>, answered: set<string>): seq<ToolCall> {
    if calls == [] then []
    else if calls[0].id == "" || calls[0].id in answered then Unanswered(calls[1..], answered)
    else [calls[0]] + Unanswered(calls[1..], answered + {calls[0].id})
  }

  /** The end of the block of tool messages that starts at i. */
  function BlockEnd(msgs: seq<Message>, i: nat): (k: nat)
    requires i <= |msgs|
    ensures i <= k <= |msgs| && (forall j | i <= j < k :: msgs[j].role.Tool?) && (k < |msgs| ==> !msgs[k].role.Tool?)
    decreases |msgs| - i
  {
    if i < |msgs| && msgs[i].role.Tool? then BlockEnd(msgs, i + 1) else i
  }

  predicate ResultsFor(orphans: seq<ToolCall>, inserted: seq<Message>) {
    |inserted| == |orphans| && forall i | 0 <= i < |orphans| :: inserted[i] == Reply(orphans[i].id, inserted[i].content)
  }

  function OrphansOf(msgs: seq<Message>): seq<ToolCall> {
    match LastAsk(msgs)
    case None => []
    case Some(c) => Unanswered(msgs[c].calls, AnsweredIds(msgs))
  }

  function InsertionPoint(msgs: seq<Message>): (k: nat)
    ensures k <= |msgs|
  {
    match LastAsk(msgs)
    case None => 0
    case Some(c) => BlockEnd(msgs, c + 1)
  }

  /** The recovered transcript, whatever the calls returned. */
  ghost predicate Recovers(msgs: seq<Message>, inserted: seq<Message>, out: seq<Message>) {
    && ResultsFor(OrphansOf(msgs), inserted)
    && out == msgs[..InsertionPoint(msgs)] + inserted + msgs[InsertionPoint(msgs)..]
  }

  lemma NothingInserted(msgs: seq<Message>, k: nat)
    requires k <= |msgs|
    ensures msgs[..k] + [] + msgs[k..] == msgs
  {
  }

  method FindCandidate(messages: seq<Message>) returns (candidate: Option<nat>)
    ensures candidate == LastAsk(messages)
  {
    var i: nat := |messages|;
    assert messages[..|messages|] == messages;
    while i > 0
      invariant 0 <= i <= |messages| && LastAsk(messages) == LastAsk(messages[..i])
    {
      assert messages[..i][..i - 1] == messages[..i - 1];
      i := i - 1;
      if messages[i].role.Assistant? && messages[i].calls != [] {
        return Some(i);
      }
    }
    candidate := None;
  }

  method CollectOrphans(messages: seq<Message>, candidate: nat) returns (orphans: seq<ToolCall>)
    requires candidate < |messages|
    ensures orphans == Unanswered(messages[candidate].calls, AnsweredIds(messages))
  {
    var resultIDs: set<string> := {};
    for i := 0 to |messages|
      invariant resultIDs == AnsweredIds(messages[..i])
    {
      StepRound.AnsweredGrows(messages, i);
      if messages[i].role.Tool? && messages[i].toolId != "" {
        resultIDs := resultIDs + {messages[i].toolId};
      }
    }
    assert messages[..|messages|] == messages;
    var calls := messages[candidate].calls;
    orphans := [];
    var seen: set<string> := {};
    assert resultIDs + seen == resultIDs;
    for i := 0 to |calls|
      invariant orphans + Unanswered(calls[i..], resultIDs + seen) == Unanswered(calls, resultIDs)
    {
      assert calls[i..][1..] == calls[i + 1..];
      var tc := calls[i];
      if tc.id != "" && tc.id !in resultIDs && tc.id !in seen {
        assert (resultIDs + seen) + {tc.id} == resultIDs + (seen + {tc.id});
        Assoc(orphans, [tc], Unanswered(calls[i + 1..], resultIDs + seen + {tc.id}));
        orphans := orphans + [tc];
        seen := seen + {tc.id};
      }
    }
    assert calls[|calls|..] == [];
    assert orphans + [] == orphans;
  }

  /** Re-executes each orphan; whatever it returns becomes its tool message. */
  method RunOrphans(a: StepRound.Agent, orphans: seq<ToolCall>, kept: seq<Message>, ghost ch: StepRound.StopChannel)
    returns (out: seq<Message>, ghost inserted: seq<Message>)
    modifies a`stopCh, a.stopCh, a`emitted
    ensures a.stopCh == old(a.stopCh) || fresh(a.stopCh)
    ensures old(ch.closed) ==> ch.closed
    ensures ResultsFor(orphans, inserted) && out == kept + inserted
    ensures a.emitted == old(a.emitted) + StepRound.Heard(a.hears, inserted)
  {
    out, inserted := kept, [];
    assert a.emitted == old(a.emitted) + StepRound.Heard(a.hears, inserted);
    for i := 0 to |orphans|
      invariant (a.stopCh == old(a.stopCh) || fresh(a.stopCh)) && (old(ch.closed) ==> ch.closed)
      invariant ResultsFor(orphans[..i], inserted) && out == kept + inserted
      invariant a.emitted == old(a.emitted) + StepRound.Heard(a.hears, inserted)
    {
      a.Others(ch);
      var result: Content := *;
      var m := Reply(orphans[i].id, result);
      out := out + [m];
      a.OnMessage(m);
      StepRound.HeardThen(a.hears, old(a.emitted), inserted, [m]);
      inserted := inserted + [m];
    }
    assert orphans[..|orphans|] == orphans;
  }

  /** Skips the existing tool results of the asking message. */
  method SkipToolBlock(messages: seq<Message>, start: nat) returns (insertAt: nat)
    requires start <= |messages|
    ensures insertAt == BlockEnd(messages, start)
  {
    insertAt := start;
    while insertAt < |messages| && messages[insertAt].role.Tool?
      invariant start <= insertAt <= |messages|
      invariant BlockEnd(messages, insertAt) == BlockEnd(messages, start)
    {
      insertAt := insertAt + 1;
    }
  }

  method RecoverOrphanedToolCalls(a: StepRound.Agent, messages: seq<Message>, ghost ch: StepRound.StopChannel)
    returns (out: seq<Message>, ghost inserted: seq<Message>)
    modifies a`stopCh, a.stopCh, a`emitted
    ensures a.stopCh == old(a.stopCh) || fresh(a.stopCh)
    ensures old(ch.closed) ==> ch.closed
    ensures Recovers(messages, inserted, out)
    ensures a.emitted == old(a.emitted) + StepRound.Heard(a.hears, inserted)
  {
    out, inserted := messages, [];
    assert a.emitted == old(a.emitted) + StepRound.Heard(a.hears, inserted);
    var candidate := FindCandidate(messages);
    if candidate.None? {
      NothingInserted(messages, 0);
      return;
    }
    var orphans := CollectOrphans(messages, candidate.value);
    var insertAt := SkipToolBlock(messages, candidate.value + 1);
    if orphans == [] {
      NothingInserted(messages, insertAt);
      return;
    }
    out, inserted := RunOrphans(a, orphans, messages[..insertAt], ch);
    out := out + messages[insertAt..];
  }

  // ----- What recovery guarantees

  lemma {:induction false} UnansweredExactly(calls: seq<ToolCall>, answered: set<string>, inserted: seq<Message>, id: string)
    requires ResultsFor(Unanswered(calls, answered), inserted)
    ensures Replies(inserted, id) == if id in Ids(calls) && id != "" && id !in answered then 1 else 0
    decreases |calls|
  {
    if calls != [] {
      IdsSplit(calls, id);
      var c := calls[0].id;
      if c == "" || c in answered {
        UnansweredExactly(calls[1..], answered, inserted, id);
      } else {
        var rest := inserted[1..];
        assert inserted == [inserted[0]] + rest;
        UnansweredExactly(calls[1..], answered + {c}, rest, id);
        RepliesConcat([inserted[0]], rest, id);
        SingleReply(inserted[0], id);
      }
    }
  }

  /** One result for each distinct unanswered id of the last asking message, and for no other id. */
  lemma InsertsExactlyTheOrphans(msgs: seq<Message>, inserted: seq<Message>, out: seq<Message>, id: string)
    requires Recovers(msgs, inserted, out)
    ensures Replies(inserted, id) ==
      if LastAsk(msgs).Some? && id in Ids(msgs[LastAsk(msgs).value].calls) && id != "" && Replies(msgs, id) == 0 then 1 else 0
  {
    if LastAsk(msgs).Some? {
      UnansweredExactly(msgs[LastAsk(msgs).value].calls, AnsweredIds(msgs), inserted, id);
      if id != "" {
        AnsweredIffReplies(msgs, id);
      }
    }
  }

  /** The results stand directly behind the asking message's own tool messages; the rest keeps its order. */
  lemma InsertsBehindTheToolBlock(msgs: seq<Message>, inserted: seq<Message>, out: seq<Message>)
    requires Recovers(msgs, inserted, out) && LastAsk(msgs).Some?
    ensures var c, k := LastAsk(msgs).value, InsertionPoint(msgs);
            && c < k <= |msgs|
            && out[..k] == msgs[..k] && out[k..k + |inserted|] == inserted && out[k + |inserted|..] == msgs[k..]
            && (forall i | c < i < k + |inserted| :: out[i].role.Tool?)
            && (k < |msgs| ==> !out[k + |inserted|].role.Tool?)
  {
    var k := InsertionPoint(msgs);
    assert out[..k] == msgs[..k] && out[k..k + |inserted|] == inserted && out[k + |inserted|..] == msgs[k..];
    forall i | LastAsk(msgs).value < i < k + |inserted|
      ensures out[i].role.Tool?
    {
      assert i < k ==> out[i] == msgs[i];
      assert i >= k ==> out[i] == inserted[i - k];
    }
    assert k < |msgs| ==> out[k + |inserted|] == msgs[k];
  }

  lemma LastAskIs(msgs: seq<Message>, c: nat)
    requires c < |msgs| && Asks(msgs[c]) && forall i | c < i < |msgs| :: !Asks(msgs[i])
    ensures LastAsk(msgs) == Some(c)
  {
    assert Asks(msgs[c]);
  }

  lemma {:induction false} NothingUnanswered(calls: seq<ToolCall>, answered: set<string>)
    requires forall i | 0 <= i < |calls| :: calls[i].id == "" || calls[i].id in answered
    ensures Unanswered(calls, answered) == []
    decreases |calls|
  {
    if calls != [] {
      NothingUnanswered(calls[1..], answered);
    }
  }

  /** Nothing is missing: recovery returns the transcript it was given. */
  lemma IdentityWhenAllAnswered(msgs: seq<Message>, inserted: seq<Message>, out: seq<Message>)
    requires Recovers(msgs, inserted, out)
    requires LastAsk(msgs).Some? ==>
      forall id | id in Ids(msgs[LastAsk(msgs).value].calls) && id != "" :: Replies(msgs, id) > 0
    ensures inserted == [] && out == msgs
  {
    if LastAsk(msgs).Some? {
      var calls := msgs[LastAsk(msgs).value].calls;
      forall i | 0 <= i < |calls|
        ensures calls[i].id == "" || calls[i].id in AnsweredIds(msgs)
      {
        if calls[i].id != "" {
          assert calls[i].id in Ids(calls);
          AnsweredIffReplies(msgs, calls[i].id);
        }
      }
      NothingUnanswered(calls, AnsweredIds(msgs));
    }
    NothingInserted(msgs, InsertionPoint(msgs));
  }

  lemma RecoveredReplies(msgs: seq<Message>, inserted: seq<Message>, out: seq<Message>, id: string)
    requires Recovers(msgs, inserted, out)
    ensures Replies(out, id) == Replies(msgs, id) + Replies(inserted, id)
  {
    var k := InsertionPoint(msgs);
    RepliesConcat(msgs[..k] + inserted, msgs[k..], id);
    RepliesConcat(msgs[..k], inserted, id);
    SplitReplies(msgs, k, id);
  }

  lemma RecoveredLastAsk(msgs: seq<Message>, inserted: seq<Message>, out: seq<Message>)
    requires Recovers(msgs, inserted, out) && LastAsk(msgs).Some?
    ensures LastAsk(out) == LastAsk(msgs) && out[LastAsk(msgs).value] == msgs[LastAsk(msgs).value]
  {
    var c, k := LastAsk(msgs).value, InsertionPoint(msgs);
    InsertsBehindTheToolBlock(msgs, inserted, out);
    assert out[c] == out[..k][c] == msgs[c];
    forall i | c < i < |out|
      ensures !Asks(out[i])
    {
      if i >= k + |inserted| {
        assert out[i] == msgs[k..][i - k - |inserted|];
      }
    }
    LastAskIs(out, c);
  }

  /** A second recovery finds nothing to do. */
  lemma RecoveryIsIdempotent(msgs: seq<Message>, inserted: seq<Message>, out: seq<Message>, more: seq<Message>, again: seq<Message>)
    requires Recovers(msgs, inserted, out) && Recovers(out, more, again)
    ensures more == [] && again == out
  {
    if LastAsk(msgs).None? {
      NothingInserted(msgs, 0);
    } else {
      RecoveredLastAsk(msgs, inserted, out);
      forall id | id in Ids(msgs[LastAsk(msgs).value].calls) && id != ""
        ensures Replies(out, id) > 0
      {
        RecoveredReplies(msgs, inserted, out, id);
        InsertsExactlyTheOrphans(msgs, inserted, out, id);
      }
    }
    IdentityWhenAllAnswered(out, more, again);
  }

  /**
    A transcript whose last asking message went through a round, completed or
    cancelled at any point and with any ids, is left alone.
  */
  lemma ClosedRoundsAreLeftAlone(before: seq<Message>, resp: Message, handoff: Option<Message>, round: Outcome, after: seq<Message>,
                                 inserted: seq<Message>, out: seq<Message>)
    requires Asks(resp) && Round(resp, handoff, round).Ok() && forall i | 0 <= i < |after| :: !Asks(after[i])
    requires Recovers(before + ([resp] + round.Tail()) + after, inserted, out)
    ensures inserted == [] && out == before + ([resp] + round.Tail()) + after
  {
    var msgs := before + ([resp] + round.Tail()) + after;
    RoundPublishesNoEmptySlot(round, resp.calls, handoff);
    forall i | |before| < i < |msgs|
      ensures !Asks(msgs[i])
    {
      if i <= |before| + |round.Tail()| {
        assert msgs[i] == round.Tail()[i - |before| - 1];
      } else {
        assert msgs[i] == after[i - |before| - 1 - |round.Tail()|];
      }
    }
    LastAskIs(msgs, |before|);
    RoundLeavesNoOrphan(round, resp.calls, handoff);
    forall id | id in Ids(resp.calls) && id != ""
      ensures Replies(msgs, id) > 0
    {
      RepliesConcat(before + ([resp] + round.Tail()), after, id);
      RepliesConcat(before, [resp] + round.Tail(), id);
      RepliesConcat([resp], round.Tail(), id);
    }
    IdentityWhenAllAnswered(msgs, inserted, out);
  }

  // ----- The reply at the step limit

  lemma {:induction false} UnansweredAtMost(calls: seq<ToolCall>, answered: set<string>)
    ensures |Unanswered(calls, answered)| <= |calls|
    decreases |calls|
  {
    if calls != [] {
      UnansweredAtMost(calls[1..], if calls[0].id == "" || calls[0].id in answered then answered else answered + {calls[0].id});
    }
  }

  lemma ProperSplit(calls: seq<ToolCall>)
    requires calls != []
    ensures Proper(calls) <==> calls[0].id != "" && Proper(calls[1..]) && calls[0].id !in Ids(calls[1..])
    ensures Ids(calls) == {calls[0].id} + Ids(calls[1..])
  {
    var c, rest := calls[0].id, calls[1..];
    assert Proper(calls) ==> c !in Ids(rest);
    forall id
      ensures id in Ids(calls) <==> id == c || id in Ids(rest)
    {
      IdsSplit(calls, id);
    }
    if c != "" && Proper(rest) && c !in Ids(rest) {
      forall i, j | 0 <= i < j < |calls|
        ensures calls[i].id != calls[j].id
      {
        assert calls[j] == rest[j - 1] && rest[j - 1].id in Ids(rest);
        assert i > 0 ==> calls[i] == rest[i - 1];
      }
    }
  }

  lemma {:induction false} AllUnansweredIff(calls: seq<ToolCall>, answered: set<string>)
    ensures Unanswered(calls, answered) == calls <==> Proper(calls) && Ids(calls) !! answered
    decreases |calls|
  {
    if calls != [] {
      var c, rest := calls[0].id, calls[1..];
      ProperSplit(calls);
      if c == "" || c in answered {
        UnansweredAtMost(rest, answered);
      } else {
        AllUnansweredIff(rest, answered + {c});
        assert [calls[0]] + rest == calls && ([calls[0]] + Unanswered(rest, answered + {c}))[1..] == Unanswered(rest, answered + {c});
      }
    }
  }

  /** The transcript ends with the reply at the step limit; nothing behind it asks or answers. */
  ghost predicate EndsAtLimit(msgs: seq<Message>, before: seq<Message>, summary: Message, reply: Message, after: seq<Message>) {
    && msgs == before + [summary, reply] + after && summary.role.User? && Asks(reply)
    && forall i | 0 <= i < |after| :: !after[i].role.Tool? && !Asks(after[i])
  }

  lemma LimitReplyIsLast(msgs: seq<Message>, before: seq<Message>, summary: Message, reply: Message, after: seq<Message>)
    requires EndsAtLimit(msgs, before, summary, reply, after)
    ensures LastAsk(msgs) == Some(|before| + 1) && InsertionPoint(msgs) == |before| + 2
  {
    LastAskIs(msgs, |before| + 1);
    assert |before| + 2 < |msgs| ==> msgs[|before| + 2] == after[0];
  }

  lemma {:induction false} NoReplies(msgs: seq<Message>, id: string)
    requires forall i | 0 <= i < |msgs| :: !msgs[i].role.Tool?
    ensures Replies(msgs, id) == 0
  {
    if msgs != [] {
      NoReplies(msgs[..|msgs| - 1], id);
    }
  }

  lemma OnlyBeforeAnswers(msgs: seq<Message>, before: seq<Message>, summary: Message, reply: Message, after: seq<Message>, id: string)
    requires EndsAtLimit(msgs, before, summary, reply, after)
    ensures Replies(msgs, id) == Replies(before, id)
  {
    RepliesConcat(before + [summary, reply], after, id);
    RepliesConcat(before, [summary, reply], id);
    NoReplies(after, id);
    NoReplies([summary, reply], id);
  }

  /**
    The reply at the step limit is not lost: the next Step executes each of its calls,
    once and in order, if and only if the ids are proper and nobody used them before.
  */
  lemma LimitReplyRunsNext(msgs: seq<Message>, before: seq<Message>, summary: Message, reply: Message, after: seq<Message>)
    requires EndsAtLimit(msgs, before, summary, reply, after)
    ensures OrphansOf(msgs) == reply.calls <==> Proper(reply.calls) && forall id | id in Ids(reply.calls) :: Replies(before, id) == 0
  {
    LimitReplyIsLast(msgs, before, summary, reply, after);
    AllUnansweredIff(reply.calls, AnsweredIds(msgs));
    forall id | id in Ids(reply.calls) && id != ""
      ensures id in AnsweredIds(msgs) <==> Replies(before, id) > 0
    {
      AnsweredIffReplies(msgs, id);
      OnlyBeforeAnswers(msgs, before, summary, reply, after, id);
    }
  }

  /** Then the recovered transcript has the results right behind the reply, which closes the last ask. */
  lemma RecoveredLimitReply(msgs: seq<Message>, before: seq<Message>, summary: Message, reply: Message, after: seq<Message>,
                            inserted: seq<Message>, out: seq<Message>)
    requires EndsAtLimit(msgs, before, summary, reply, after) && Recovers(msgs, inserted, out)
    requires Proper(reply.calls) && forall id | id in Ids(reply.calls) :: Replies(before, id) == 0
    ensures out == before + [summary, reply] + inserted + after && Answers(reply.calls, inserted)
    ensures forall i | 0 <= i < |inserted| :: inserted[i].role.Tool?
  {
    LimitReplyIsLast(msgs, before, summary, reply, after);
    assert msgs[..|before| + 2] == before + [summary, reply] && msgs[|before| + 2..] == after;
    forall id | id != ""
      ensures Replies(inserted, id) == if id in Ids(reply.calls) then 1 else 0
    {
      InsertsExactlyTheOrphans(msgs, inserted, out, id);
      OnlyBeforeAnswers(msgs, before, summary, reply, after, id);
    }
  }

  lemma WhereItAsks(before: seq<Message>, summary: Message, reply: Message, inserted: seq<Message>, after: seq<Message>,
                    out: seq<Message>, p: nat)
    requires out == before + [summary, reply] + inserted + after && AsksAt(out, p) && summary.role.User?
    requires forall i | 0 <= i < |inserted| :: inserted[i].role.Tool?
    requires forall i | 0 <= i < |after| :: !Asks(after[i])
    ensures if p < |before| then AsksAt(before, p) && out[p] == before[p] else p == |before| + 1 && out[p] == reply
  {
    var n, k := |before| + 2, |inserted|;
    forall i | n <= i < |out|
      ensures !Asks(out[i])
    {
      assert out[i] == if i < n + k then inserted[i - n] else after[i - n - k];
    }
  }

  lemma LoggedAskStaysAnswered(log: seq<Segment>, before: seq<Message>, more: seq<Message>, p: nat)
    requires LogOk(log) && before == Transcript(log) && AsksAt(before, p) && Proper(before[p].calls)
    ensures AnsweredAt(before + more, p)
  {
    EveryAskIsAnswered(log, p);
    AnsweredStays(before, more, p);
  }

  lemma InsertedAnswers(before: seq<Message>, summary: Message, reply: Message, inserted: seq<Message>, after: seq<Message>)
    requires Answers(reply.calls, inserted)
    ensures AnsweredAt(before + [summary, reply] + inserted + after, |before| + 1)
  {
    var out, p := before + [summary, reply] + inserted + after, |before| + 1;
    assert out[p] == reply && out[p + 1..p + 1 + |inserted|] == inserted;
    assert AnsweredWithin(out, p, |inserted|);
  }

  lemma Regroup(a: seq<Message>, b: seq<Message>, c: seq<Message>, d: seq<Message>)
    ensures a + b + c + d == a + (b + c + d)
  {
  }

  lemma AnsweredInOut(log: seq<Segment>, before: seq<Message>, summary: Message, reply: Message, inserted: seq<Message>,
                      after: seq<Message>, out: seq<Message>, p: nat)
    requires LogOk(log) && before == Transcript(log)
    requires out == before + [summary, reply] + inserted + after && Answers(reply.calls, inserted)
    requires AsksAt(out, p) && Proper(out[p].calls)
    requires if p < |before| then AsksAt(before, p) && out[p] == before[p] else p == |before| + 1
    ensures AnsweredAt(out, p)
  {
    if p < |before| {
      Regroup(before, [summary, reply], inserted, after);
      LoggedAskStaysAnswered(log, before, [summary, reply] + inserted + after, p);
    } else {
      InsertedAnswers(before, summary, reply, inserted, after);
    }
  }

  /**
    With that the exemption at the step limit ends: once the next Step has recovered,
    every proper asking message of the transcript is answered right behind it.
  */
  lemma NextStepAnswersEveryAsk(log: seq<Segment>, msgs: seq<Message>, before: seq<Message>, summary: Message, reply: Message,
                                after: seq<Message>, inserted: seq<Message>, out: seq<Message>, p: nat)
    requires LogOk(log) && before == Transcript(log)
    requires EndsAtLimit(msgs, before, summary, reply, after) && Recovers(msgs, inserted, out)
    requires Proper(reply.calls) && forall id | id in Ids(reply.calls) :: Replies(before, id) == 0
    requires AsksAt(out, p) && Proper(out[p].calls)
    ensures AnsweredAt(out, p)
  {
    RecoveredLimitReply(msgs, before, summary, reply, after, inserted, out);
    WhereItAsks(before, summary, reply, inserted, after, out, p);
    AnsweredInOut(log, before, summary, reply, inserted, after, out, p);
  }
}

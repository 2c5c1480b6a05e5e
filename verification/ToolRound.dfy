/**
  The tool-call round of Agent.Step (internal/agent/agent.go). One assistant message
  asks for a batch of calls; results are computed out of order, in slots, and
  published in order, and the user may cancel at any poll.

  Step captures the stop channel once. Cancel closes whichever channel is current and
  ResetCancellation swaps the field, so the captured channel never reopens: a slot that
  a worker left empty after a poll stays behind a closed channel.
*/
module ToolRound {
  import opened Wrappers
  import opened JsonKeys

  datatype Role = NoRole | User | System | Assistant | Tool

  /** What a message says; the wording of the two fixed notices is left open. */
  datatype Content =
    | Text(text: string)
    | ToolCancelled
    | RejectedDuplicate(tool: string, winnerId: string, winner: Content)

  datatype Message = Message(role: Role, toolId: string, content: Content, calls: seq<ToolCall>)

  /** An unfilled result slot: Go's zero value. */
  const Zero := Message(NoRole, "", Text(""), [])

  function Reply(id: string, content: Content): Message {
    Message(Tool, id, content, [])
  }

  predicate IsReply(m: Message) {
    m.role.Tool? && m.toolId != ""
  }

  function Ids(calls: seq<ToolCall>): set<string> {
    set i | 0 <= i < |calls| :: calls[i].id
  }

  /** What a provider is expected to send: distinct, non-empty call ids. */
  predicate Proper(calls: seq<ToolCall>) {
    && (forall i | 0 <= i < |calls| :: calls[i].id != "")
    && (forall i, j | 0 <= i < j < |calls| :: calls[i].id != calls[j].id)
  }

  /** How many tool messages answer an id. */
  function Replies(msgs: seq<Message>, id: string): nat {
    if msgs == [] then 0
    else Replies(msgs[..|msgs| - 1], id) + if msgs[|msgs| - 1].role.Tool? && msgs[|msgs| - 1].toolId == id then 1 else 0
  }

  /** Every call is answered by one tool message and nothing else is answered. */
  ghost predicate Answers(calls: seq<ToolCall>, tail: seq<Message>) {
    forall id | id != "" :: Replies(tail, id) == if id in Ids(calls) then 1 else 0
  }

  lemma {:induction false} RepliesConcat(a: seq<Message>, b: seq<Message>, id: string)
    ensures Replies(a + b, id) == Replies(a, id) + Replies(b, id)
    decreases |b|
  {
    if b == [] {
      assert a + b == a;
    } else {
      assert (a + b)[..|a + b| - 1] == a + b[..|b| - 1];
      RepliesConcat(a, b[..|b| - 1], id);
    }
  }

  // ----- Result slots

  predicate SlotOf(call: ToolCall, m: Message) {
    m == Zero || (m.role.Tool? && m.toolId == call.id)
  }

  predicate Slots(calls: seq<ToolCall>, rs: seq<Message>) {
    |rs| == |calls| && forall i | 0 <= i < |rs| :: SlotOf(calls[i], rs[i])
  }

  /** Distinct ids: the filled slots answer their own calls, once each. */
  lemma {:induction false} SlotsAnswerOnce(calls: seq<ToolCall>, rs: seq<Message>, n: nat, id: string)
    requires Proper(calls) && Slots(calls, rs) && n <= |rs| && id != ""
    ensures Replies(rs[..n], id) == if exists i :: 0 <= i < n && calls[i].id == id && rs[i] != Zero then 1 else 0
  {
    if n > 0 {
      SlotsAnswerOnce(calls, rs, n - 1, id);
      assert rs[..n][..n - 1] == rs[..n - 1];
      if rs[n - 1] != Zero && calls[n - 1].id == id {
        assert forall i | 0 <= i < n - 1 :: calls[i].id != id;
      }
    }
  }

  // ----- finishCancelledRound

  /** The ids answered by the results so far. */
  function AnsweredIds(rs: seq<Message>): set<string> {
    set i | 0 <= i < |rs| && IsReply(rs[i]) :: rs[i].toolId
  }

  /** One placeholder for each id nobody answered, in call order. */
  function Placeholders(calls: seq<ToolCall>, answered: set<string>): seq<Message> {
    if calls == [] then []
    else if calls[0].id in answered then Placeholders(calls[1..], answered)
    else [Reply(calls[0].id, ToolCancelled)] + Placeholders(calls[1..], answered + {calls[0].id})
  }

  function Publishable(tail: seq<Message>): seq<Message> {
    if tail == [] then []
    else Publishable(tail[..|tail| - 1]) + if IsReply(tail[|tail| - 1]) then [tail[|tail| - 1]] else []
  }

  /** What a cancelled round still publishes. */
  function CancelTail(calls: seq<ToolCall>, rs: seq<Message>, published: nat): seq<Message>
    requires published <= |rs|
  {
    Publishable(rs[published..] + Placeholders(calls, AnsweredIds(rs)))
  }

  lemma {:induction false} PublishableKeepsReplies(tail: seq<Message>, id: string)
    requires id != ""
    ensures Replies(Publishable(tail), id) == Replies(tail, id)
  {
    if tail != [] {
      var last := tail[|tail| - 1];
      PublishableKeepsReplies(tail[..|tail| - 1], id);
      RepliesConcat(Publishable(tail[..|tail| - 1]), if IsReply(last) then [last] else [], id);
    }
  }

  lemma {:induction false} PublishableKeepsMembers(tail: seq<Message>, m: Message)
    ensures m in Publishable(tail) <==> m in tail && IsReply(m)
  {
    if tail != [] {
      PublishableKeepsMembers(tail[..|tail| - 1], m);
      assert tail == tail[..|tail| - 1] + [tail[|tail| - 1]];
    }
  }

  lemma {:induction false} PlaceholdersFillTheGaps(calls: seq<ToolCall>, answered: set<string>, id: string)
    ensures Replies(Placeholders(calls, answered), id) == if id in Ids(calls) && id !in answered then 1 else 0
    ensures id in Ids(calls) && id !in answered ==> Reply(id, ToolCancelled) in Placeholders(calls, answered)
  {
    if calls != [] {
      var c, rest := calls[0].id, calls[1..];
      IdsSplit(calls, id);
      if c in answered {
        PlaceholdersFillTheGaps(rest, answered, id);
      } else {
        PlaceholdersFillTheGaps(rest, answered + {c}, id);
        RepliesConcat([Reply(c, ToolCancelled)], Placeholders(rest, answered + {c}), id);
        SingleReply(Reply(c, ToolCancelled), id);
      }
    }
  }

  lemma SingleReply(m: Message, id: string)
    ensures Replies([m], id) == if m.role.Tool? && m.toolId == id then 1 else 0
  {
    assert [m][..0] == [];
  }

  lemma IdsSplit(calls: seq<ToolCall>, id: string)
    requires calls != []
    ensures id in Ids(calls) <==> id == calls[0].id || id in Ids(calls[1..])
  {
    var rest := calls[1..];
    assert forall i | 0 <= i < |rest| :: rest[i] == calls[i + 1];
    if id in Ids(calls) {
      var i :| 0 <= i < |calls| && calls[i].id == id;
      assert i == 0 || rest[i - 1].id == id;
    }
  }

  lemma SplitReplies(rs: seq<Message>, n: nat, id: string)
    requires n <= |rs|
    ensures Replies(rs[..n], id) + Replies(rs[n..], id) == Replies(rs, id)
  {
    assert rs == rs[..n] + rs[n..];
    RepliesConcat(rs[..n], rs[n..], id);
  }

  /** The count for one id: what the slots say, plus a placeholder where they say nothing. */
  lemma CancelTailCounts(calls: seq<ToolCall>, rs: seq<Message>, published: nat, id: string)
    requires published <= |rs| && id != ""
    ensures Replies(rs[..published] + CancelTail(calls, rs, published), id)
         == Replies(rs, id) + if id in Ids(calls) && id !in AnsweredIds(rs) then 1 else 0
  {
    var gaps := Placeholders(calls, AnsweredIds(rs));
    RepliesConcat(rs[..published], CancelTail(calls, rs, published), id);
    PublishableKeepsReplies(rs[published..] + gaps, id);
    RepliesConcat(rs[published..], gaps, id);
    SplitReplies(rs, published, id);
    PlaceholdersFillTheGaps(calls, AnsweredIds(rs), id);
  }

  lemma {:induction false} AnsweredIffReplies(rs: seq<Message>, id: string)
    requires id != ""
    ensures id in AnsweredIds(rs) <==> Replies(rs, id) > 0
  {
    if rs != [] {
      var init := rs[..|rs| - 1];
      AnsweredIffReplies(init, id);
      assert forall i | 0 <= i < |init| :: init[i] == rs[i];
      if id in AnsweredIds(rs) {
        var i :| 0 <= i < |rs| && IsReply(rs[i]) && rs[i].toolId == id;
        assert i == |rs| - 1 || init[i].toolId == id;
      }
    }
  }

  /** Whatever the ids and the results: no non-empty call id is left unanswered. */
  lemma CancelledRoundHasNoOrphan(calls: seq<ToolCall>, rs: seq<Message>, published: nat)
    requires published <= |rs|
    ensures forall id | id in Ids(calls) && id != "" ::
              Replies(rs[..published] + CancelTail(calls, rs, published), id) >= 1
  {
    forall id | id in Ids(calls) && id != ""
      ensures Replies(rs[..published] + CancelTail(calls, rs, published), id) >= 1
    {
      CancelTailCounts(calls, rs, published, id);
      AnsweredIffReplies(rs, id);
    }
  }

  /** With proper ids the round is answered exactly, what was published before included. */
  lemma CancelledRoundAnswersOnce(calls: seq<ToolCall>, rs: seq<Message>, published: nat)
    requires Proper(calls) && published <= |rs| && (rs == [] || Slots(calls, rs))
    ensures Answers(calls, rs[..published] + CancelTail(calls, rs, published))
  {
    forall id | id != ""
      ensures Replies(rs[..published] + CancelTail(calls, rs, published), id) == if id in Ids(calls) then 1 else 0
    {
      CancelTailCounts(calls, rs, published, id);
      AnsweredIffReplies(rs, id);
      if rs != [] {
        SlotsAnswerOnce(calls, rs, |rs|, id);
        assert rs[..|rs|] == rs;
      }
    }
  }

  /** Work that finished keeps its result; a slot left empty is answered as cancelled. */
  lemma CancelKeepsRealResults(calls: seq<ToolCall>, rs: seq<Message>, published: nat, i: nat)
    requires Proper(calls) && Slots(calls, rs) && published <= |rs| && i < |rs|
    ensures rs[i] != Zero ==> rs[i] in rs[..published] + CancelTail(calls, rs, published)
    ensures rs[i] == Zero ==> Reply(calls[i].id, ToolCancelled) in CancelTail(calls, rs, published)
  {
    var gaps := Placeholders(calls, AnsweredIds(rs));
    var all := rs[published..] + gaps;
    if rs[i] != Zero {
      PublishableKeepsMembers(all, rs[i]);
      assert i < published ==> rs[..published][i] == rs[i];
      assert i >= published ==> all[i - published] == rs[i];
    } else {
      var m := Reply(calls[i].id, ToolCancelled);
      assert calls[i].id !in AnsweredIds(rs);
      PlaceholdersFillTheGaps(calls, AnsweredIds(rs), calls[i].id);
      PublishableKeepsMembers(all, m);
    }
  }
}

/**
  Agent.Step's tool round as code (internal/agent/agent.go): the stop channel, the
  polls, the workers that fill the result slots and every way out of the round.
  Between any two statements other goroutines may cancel or reset; Others stands for
  all of that.
*/
module StepRound {
  import opened Wrappers
  import opened JsonKeys
  import opened ToolRound
  import opened Rounds

  class StopChannel {
    var closed: bool

    constructor ()
      ensures !closed
    {
      closed := false;
    }
  }

  /** How the parallel calls are run; blocked are the nodes of which a predecessor failed or was skipped. */
  datatype Gate = Flat | Dag(blocked: set<nat>) | DagInvalid(error: Content)

  predicate DagEligible(call: ToolCall) {
    call.name == "task" || call.name == "agent"
  }

  /** The messages a listener sees when the given ones are sent. */
  function Heard(hears: bool, msgs: seq<Message>): seq<Message> {
    if hears then msgs else []
  }

  lemma HeardThen(hears: bool, before: seq<Message>, a: seq<Message>, b: seq<Message>)
    ensures (before + Heard(hears, a)) + Heard(hears, b) == before + Heard(hears, a + b)
  {
  }

  /** What happens around a tool: a poll with its answer, and the start of a call. */
  datatype Act = Polled(open: bool) | Started(call: nat)

  /** Each new start directly follows a poll that found the channel open. */
  ghost predicate Guarded(was: seq<Act>, now: seq<Act>) {
    was <= now && forall k | |was| <= k < |now| && now[k].Started? :: |was| < k && now[k - 1] == Polled(true)
  }

  /** The last thing that happened is a poll that found the channel open. */
  predicate LastOpen(acts: seq<Act>) {
    acts != [] && acts[|acts| - 1] == Polled(true)
  }

  /** A poll and a start for each call, in order. */
  function InTurn(todo: seq<nat>): seq<Act> {
    if todo == [] then [] else InTurn(todo[..|todo| - 1]) + [Polled(true), Started(todo[|todo| - 1])]
  }

  function Polls(n: nat): seq<Act> {
    seq(n, i => Polled(true))
  }

  lemma OneMoreGuarded(was: seq<Act>, now: seq<Act>, call: nat)
    requires Guarded(was, now)
    ensures Guarded(was, now + [Polled(true), Started(call)])
  {
  }

  lemma {:induction false} InTurnGuarded(was: seq<Act>, todo: seq<nat>)
    ensures Guarded(was, was + InTurn(todo))
  {
    if todo != [] {
      var n := |todo| - 1;
      InTurnGuarded(was, todo[..n]);
      OneMoreGuarded(was, was + InTurn(todo[..n]), todo[n]);
      Assoc(was, InTurn(todo[..n]), [Polled(true), Started(todo[n])]);
    }
  }

  lemma InTurnMore(was: seq<Act>, todo: seq<nat>, k: nat)
    requires k < |todo|
    ensures (was + InTurn(todo[..k])) + [Polled(true), Started(todo[k])] == was + InTurn(todo[..k + 1])
  {
    assert todo[..k + 1][..k] == todo[..k];
  }

  lemma PollGuarded(was: seq<Act>, now: seq<Act>, open: bool)
    requires Guarded(was, now)
    ensures Guarded(was, now + [Polled(open)])
  {
  }

  /** A poll that ends the line after its first k calls. */
  lemma StopsInTurn(was: seq<Act>, todo: seq<nat>, k: nat)
    requires k < |todo|
    ensures var now := (was + InTurn(todo[..k])) + [Polled(false)];
            Guarded(was, now) && exists j :: 0 <= j < |todo| && now == was + (InTurn(todo[..j]) + [Polled(false)])
  {
    InTurnGuarded(was, todo[..k]);
    PollGuarded(was, was + InTurn(todo[..k]), false);
    Assoc(was, InTurn(todo[..k]), [Polled(false)]);
  }

  lemma NextIsDue(script: Script, i: nat, due: seq<Message>)
    requires due == script.Before(i) && script.GoesOn(i) && forall j: nat | j < i :: script.GoesOn(j)
    ensures script.Before(i + 1) == script.Reviewed(due, i) && forall j: nat | j < i + 1 :: script.GoesOn(j)
  {
    script.NextTurn(i);
  }

  /** Nothing follows a message of its own. */
  lemma NothingBehind(log: seq<Segment>, m: Message)
    ensures Transcript(Front(log + [Plain(m)])) + Answered(log + [Plain(m)]) == Transcript(log)
  {
    assert Front(log + [Plain(m)]) == log;
  }

  lemma OnePollMore(was: seq<Act>, n: nat)
    ensures (was + Polls(n)) + [Polled(true)] == was + Polls(n + 1)
  {
  }

  lemma GuardedOn(a: seq<Act>, b: seq<Act>, c: seq<Act>)
    requires Guarded(a, b) && Guarded(b, c)
    ensures Guarded(a, c)
  {
    forall k | |a| <= k < |c| && c[k].Started?
      ensures |a| < k && c[k - 1] == Polled(true)
    {
      if k < |b| {
        assert c[k] == b[k] && c[k - 1] == b[k - 1];
      }
    }
  }

  /** What the tools of some more calls answered. */
  ghost predicate Extends(was: map<nat, Message>, now: map<nat, Message>, todo: set<nat>) {
    && (forall i | i in was :: i in now && now[i] == was[i])
    && (forall i | i in now :: i in was || i in todo)
  }

  /** The slot of a call holds what its tool answered, or nothing when it was not started. */
  predicate SlotIs(ran: map<nat, Message>, i: nat, m: Message) {
    if i in ran then m == ran[i] && m != Zero else m == Zero
  }

  /** The first k calls of the list have run, and nothing else has changed. */
  ghost predicate InLine(calls: seq<ToolCall>, todo: seq<nat>, k: nat, was: seq<Message>, now: seq<Message>,
                         had: map<nat, Message>, ran: map<nat, Message>) {
    && |was| == |now| == |calls| && k <= |todo| && Increasing(todo, |calls|)
    && (forall i: nat | i < |now| && i !in todo[..k] :: now[i] == was[i])
    && (forall a | 0 <= a < k :: now[todo[a]].role.Tool? && now[todo[a]].toolId == calls[todo[a]].id)
    && (forall a | 0 <= a < k :: todo[a] in ran && ran[todo[a]] == now[todo[a]])
    && Extends(had, ran, ToSet(todo[..k]))
  }

  lemma InLineNotRun(calls: seq<ToolCall>, todo: seq<nat>, k: nat, was: seq<Message>, now: seq<Message>,
                     had: map<nat, Message>, ran: map<nat, Message>)
    requires InLine(calls, todo, k, was, now, had, ran) && forall i | i in todo :: i !in had
    ensures forall a | k <= a < |todo| :: todo[a] !in ran && todo[a] !in todo[..k]
  {
    forall a | k <= a < |todo|
      ensures todo[a] !in ran && todo[a] !in todo[..k]
    {
      assert todo[a] in todo;
    }
  }

  lemma InLineStep(calls: seq<ToolCall>, todo: seq<nat>, k: nat, was: seq<Message>, now: seq<Message>,
                   had: map<nat, Message>, ran: map<nat, Message>, m: Message)
    requires InLine(calls, todo, k, was, now, had, ran) && k < |todo| && todo[k] !in ran
    requires m.role.Tool? && m.toolId == calls[todo[k]].id
    ensures InLine(calls, todo, k + 1, was, now[todo[k] := m], had, ran[todo[k] := m])
  {
    ExtendsMore(todo, k, had, ran, m);
    assert todo[..k + 1] == todo[..k] + [todo[k]];
    assert forall a | 0 <= a < k :: todo[a] != todo[k];
  }

  lemma ExtendsMore(todo: seq<nat>, k: nat, had: map<nat, Message>, ran: map<nat, Message>, m: Message)
    requires k < |todo| && Extends(had, ran, ToSet(todo[..k])) && todo[k] !in ran
    ensures Extends(had, ran[todo[k] := m], ToSet(todo[..k + 1]))
  {
    assert todo[..k + 1] == todo[..k] + [todo[k]];
  }

  lemma InLineGives(calls: seq<ToolCall>, todo: seq<nat>, k: nat, was: seq<Message>, now: seq<Message>,
                    had: map<nat, Message>, ran: map<nat, Message>)
    requires InLine(calls, todo, k, was, now, had, ran) && forall i | i in todo :: i !in had && was[i] == Zero
    ensures Extends(had, ran, ToSet(todo)) && (k == 0 ==> ran == had)
    ensures forall i | i in todo :: SlotIs(ran, i, now[i]) && SlotOf(calls[i], now[i])
    ensures forall i: nat | i < |now| && i !in todo :: now[i] == was[i]
    ensures k == |todo| ==> forall i | i in todo :: i in ran
  {
    InLineNotRun(calls, todo, k, was, now, had, ran);
    assert forall i | i in todo[..k] :: i in todo;
    forall i | i in todo
      ensures SlotIs(ran, i, now[i]) && SlotOf(calls[i], now[i]) && (k == |todo| ==> i in ran)
    {
      var a :| 0 <= a < |todo| && todo[a] == i;
      if a < k {
        assert now[todo[a]].role.Tool?;
      }
    }
  }

  /** The first k nodes have their messages, and nothing else has changed. */
  ghost predicate NodesDone(calls: seq<ToolCall>, parallel: seq<nat>, k: nat, blocked: set<nat>, was: seq<Message>, now: seq<Message>,
                            had: map<nat, Message>, ran: map<nat, Message>, closed: bool) {
    && |was| == |now| == |calls| && k <= |parallel| && Increasing(parallel, |calls|)
    && (forall i: nat | i < |now| && i !in parallel[..k] :: now[i] == was[i])
    && (forall a | 0 <= a < k :: NodeOk(calls[parallel[a]], parallel[a], blocked, now[parallel[a]], ran, closed))
    && Extends(had, ran, ToSet(parallel[..k]))
  }

  predicate NodeOk(call: ToolCall, i: nat, blocked: set<nat>, m: Message, ran: map<nat, Message>, closed: bool) {
    && m.role.Tool? && m.toolId == call.id && (i in ran ==> m == ran[i])
    && if i in blocked then i !in ran else i in ran || closed
  }

  lemma NodeIsNew(calls: seq<ToolCall>, parallel: seq<nat>, k: nat, blocked: set<nat>, was: seq<Message>, now: seq<Message>,
                  had: map<nat, Message>, ran: map<nat, Message>, closed: bool)
    requires NodesDone(calls, parallel, k, blocked, was, now, had, ran, closed) && k < |parallel|
    requires forall i | i in parallel :: i !in had
    ensures parallel[k] in parallel && parallel[k] !in ran && parallel[k] !in parallel[..k]
  {
  }

  lemma NodeStays(call: ToolCall, i: nat, j: nat, blocked: set<nat>, m: Message, mid: map<nat, Message>, ran: map<nat, Message>,
                  before: bool, closed: bool)
    requires NodeOk(call, i, blocked, m, mid, before) && (before ==> closed) && i != j && Extends(mid, ran, {j})
    ensures NodeOk(call, i, blocked, m, ran, closed)
  {
  }

  lemma ExtendsOn(had: map<nat, Message>, mid: map<nat, Message>, ran: map<nat, Message>, todo: set<nat>, i: nat)
    requires Extends(had, mid, todo) && Extends(mid, ran, {i})
    ensures Extends(had, ran, todo + {i})
  {
  }

  lemma NodeStep(calls: seq<ToolCall>, parallel: seq<nat>, k: nat, blocked: set<nat>, was: seq<Message>, now: seq<Message>,
                 had: map<nat, Message>, mid: map<nat, Message>, ran: map<nat, Message>, before: bool, closed: bool, m: Message)
    requires k < |parallel| && (before ==> closed) && NodesDone(calls, parallel, k, blocked, was, now, had, mid, before)
    requires parallel[k] !in mid && parallel[k] !in parallel[..k] && Extends(mid, ran, {parallel[k]})
    requires NodeOk(calls[parallel[k]], parallel[k], blocked, m, ran, closed)
    ensures NodesDone(calls, parallel, k + 1, blocked, was, now[parallel[k] := m], had, ran, closed)
  {
    var next := now[parallel[k] := m];
    assert parallel[..k + 1] == parallel[..k] + [parallel[k]];
    assert ToSet(parallel[..k + 1]) == ToSet(parallel[..k]) + {parallel[k]};
    ExtendsOn(had, mid, ran, ToSet(parallel[..k]), parallel[k]);
    forall a | 0 <= a < k
      ensures NodeOk(calls[parallel[a]], parallel[a], blocked, next[parallel[a]], ran, closed)
    {
      assert parallel[a] != parallel[k];
      NodeStays(calls[parallel[a]], parallel[a], parallel[k], blocked, now[parallel[a]], mid, ran, before, closed);
    }
  }

  lemma NodesGive(calls: seq<ToolCall>, parallel: seq<nat>, blocked: set<nat>, was: seq<Message>, now: seq<Message>,
                  had: map<nat, Message>, ran: map<nat, Message>, closed: bool)
    requires NodesDone(calls, parallel, |parallel|, blocked, was, now, had, ran, closed)
    ensures forall i: nat | i < |now| && i !in parallel :: now[i] == was[i]
    ensures forall i | i in parallel :: NodeOk(calls[i], i, blocked, now[i], ran, closed)
    ensures Extends(had, ran, ToSet(parallel))
  {
    assert parallel[..|parallel|] == parallel;
  }

  /** Every call that was due was started. */
  ghost predicate AllDueRan(calls: seq<ToolCall>, tools: set<string>, rejected: map<nat, nat>, gate: Gate, ran: map<nat, Message>) {
    forall i: nat | i < |calls| && i !in rejected && Due(calls[i], calls[i].name in tools, gate, i) :: i in ran
  }

  lemma DueOnesRan(calls: seq<ToolCall>, tools: set<string>, rejected: map<nat, nat>, gate: Gate, parallel: seq<nat>, sequential: seq<nat>,
                   mid: map<nat, Message>, ran: map<nat, Message>)
    requires Split(|calls|, rejected, parallel, sequential) && Extends(mid, ran, ToSet(sequential))
    requires (forall i | i in parallel :: calls[i].name in tools) && forall i | i in sequential :: calls[i].name !in tools
    requires forall i | i in parallel && Due(calls[i], true, gate, i) :: i in mid
    requires forall i | i in sequential :: i in ran
    ensures AllDueRan(calls, tools, rejected, gate, ran)
  {
    forall i: nat | i < |calls| && i !in rejected && Due(calls[i], calls[i].name in tools, gate, i)
      ensures i in ran
    {
      assert i in parallel || i in sequential;
    }
  }

  /** The slots of both lists, once the second one has run too. */
  lemma AllHonest(calls: seq<ToolCall>, tools: set<string>, rejected: map<nat, nat>, gate: Gate, parallel: seq<nat>, sequential: seq<nat>,
                  mid: map<nat, Message>, ran: map<nat, Message>, rs: seq<Message>)
    requires Split(|calls|, rejected, parallel, sequential) && |rs| == |calls|
    requires (forall i | i in parallel :: calls[i].name in tools) && forall i | i in sequential :: calls[i].name !in tools
    requires Extends(map[], mid, ToSet(parallel)) && Extends(mid, ran, ToSet(sequential))
    requires forall i | i in parallel :: HonestSlot(calls[i], true, gate, mid, i, rs[i])
    requires forall i | i in sequential :: SlotIs(ran, i, rs[i])
    ensures Honest(calls, tools, rejected, gate, ran, rs)
  {
    forall i: nat | i < |calls| && i !in rejected
      ensures HonestSlot(calls[i], calls[i].name in tools, gate, ran, i, rs[i])
    {
      assert i in parallel || i in sequential;
      assert i in parallel ==> (i in ran <==> i in mid);
    }
  }

  /** The reconciliation of a group comes once its parallel calls are done. */
  ghost function HeadOf(calls: seq<ToolCall>, tools: set<string>, rejected: map<nat, nat>, handoff: Option<Message>): seq<Message> {
    if handoff.Some? && exists i: nat :: i < |calls| && i !in rejected && calls[i].name in tools then [handoff.value] else []
  }

  lemma HeadIs(calls: seq<ToolCall>, tools: set<string>, rejected: map<nat, nat>, parallel: seq<nat>, sequential: seq<nat>, handoff: Option<Message>)
    requires Split(|calls|, rejected, parallel, sequential)
    requires (forall i | i in parallel :: calls[i].name in tools) && forall i | i in sequential :: calls[i].name !in tools
    ensures HeadOf(calls, tools, rejected, handoff) == if parallel != [] && handoff.Some? then [handoff.value] else []
  {
    if parallel != [] {
      assert parallel[0] in parallel;
    }
  }

  /** What a slot may hold under each gate. */
  predicate HonestSlot(call: ToolCall, parallel: bool, gate: Gate, ran: map<nat, Message>, i: nat, m: Message) {
    if parallel && gate.DagInvalid? && (call.name == "task" || call.name == "agent") then i !in ran && m == Reply(call.id, gate.error)
    else if parallel && gate.Dag? then m != Zero && (i in ran ==> m == ran[i] && i !in gate.blocked)
    else SlotIs(ran, i, m)
  }

  /** The call has to be started unless the round is cancelled. */
  predicate Due(call: ToolCall, parallel: bool, gate: Gate, i: nat) {
    !parallel || match gate
                 case Flat => true
                 case Dag(blocked) => i !in blocked
                 case DagInvalid(_) => call.name != "task" && call.name != "agent"
  }

  /** Rejected calls are not started; every other slot is honest. */
  ghost predicate Honest(calls: seq<ToolCall>, tools: set<string>, rejected: map<nat, nat>, gate: Gate,
                         ran: map<nat, Message>, rs: seq<Message>) {
    && |rs| == |calls|
    && (forall i | i in ran :: i < |calls| && i !in rejected)
    && (forall i: nat | i < |calls| && i !in rejected :: HonestSlot(calls[i], calls[i].name in tools, gate, ran, i, rs[i]))
  }

  /** The indices that are dispatched: all but the rejected ones, each in one list. */
  predicate Split(n: nat, rejected: map<nat, nat>, parallel: seq<nat>, sequential: seq<nat>) {
    && Increasing(parallel, n)
    && Increasing(sequential, n)
    && (forall i: nat | i < n && i in rejected :: i !in parallel && i !in sequential)
    && (forall i: nat | i < n && i !in rejected :: (i in parallel) != (i in sequential))
  }

  /** In-place filtering of an index list. */
  function Keep(list: seq<nat>, rejected: map<nat, nat>): (r: seq<nat>)
    ensures forall i :: i in r <==> i in list && i !in rejected
  {
    if list == [] then []
    else
      var init := Keep(list[..|list| - 1], rejected);
      if list[|list| - 1] in rejected then init else init + [list[|list| - 1]]
  }

  lemma {:induction false} KeepIsIncreasing(list: seq<nat>, rejected: map<nat, nat>, bound: nat)
    requires Increasing(list, bound)
    ensures Increasing(Keep(list, rejected), bound)
  {
    if list != [] {
      var init, last := list[..|list| - 1], list[|list| - 1];
      KeepIsIncreasing(init, rejected, last);
      assert Increasing(Keep(init, rejected), last);
    }
  }

  /** Slots outside todo are as before; inside, a slot is filled or the channel is closed. */
  twostate predicate FilledBy(calls: seq<ToolCall>, results: array<Message>, todo: set<nat>, ch: StopChannel)
    reads results, ch
  {
    && results.Length == |calls|
    && (forall i: nat | i < results.Length && i !in todo :: results[i] == old(results[i]))
    && (forall i: nat | i < results.Length && i in todo ::
          SlotOf(calls[i], results[i]) && (results[i] == Zero ==> ch.closed))
  }

  class Agent {
    var stopCh: StopChannel
    /** OnMessage is set. */
    const hears: bool
    const parallelTools: set<string>
    /** Everything passed to OnMessage. */
    var emitted: seq<Message>
    /** The polls and starts so far. */
    ghost var acts: seq<Act>
    /** The calls of this round whose tool was started, with what it answered. */
    ghost var ran: map<nat, Message>

    constructor (listener: bool, tools: set<string>)
      ensures fresh(stopCh) && !stopCh.closed && hears == listener && parallelTools == tools && emitted == [] && acts == [] && ran == map[]
    {
      stopCh := new StopChannel();
      hears, parallelTools, emitted, acts, ran := listener, tools, [], [], map[];
    }

    method Cancel()
      modifies stopCh
      ensures stopCh.closed
    {
      if !stopCh.closed {
        stopCh.closed := true;
      }
    }

    /** Swaps in an open channel; the old one stays closed for whoever captured it. */
    method ResetCancellation()
      modifies this`stopCh
      ensures !stopCh.closed
      ensures if old(stopCh.closed) then fresh(stopCh) else stopCh == old(stopCh)
    {
      if stopCh.closed {
        stopCh := new StopChannel();
      }
    }

    /** Any number of cancels and resets by other goroutines. */
    method Others(ghost ch: StopChannel)
      modifies this`stopCh, stopCh
      ensures stopCh == old(stopCh) || fresh(stopCh)
      ensures old(ch.closed) ==> ch.closed
    {
      var steps: int := *;
      while 0 < steps
        invariant stopCh == old(stopCh) || fresh(stopCh)
        invariant old(ch.closed) ==> ch.closed
      {
        var cancels: bool := *;
        if cancels {
          Cancel();
        } else {
          ResetCancellation();
        }
        steps := steps - 1;
      }
    }

    /** isCancelled on the captured channel. */
    method IsCancelled(ch: StopChannel) returns (stop: bool)
      modifies this`stopCh, stopCh, this`acts
      ensures stopCh == old(stopCh) || fresh(stopCh)
      ensures old(ch.closed) ==> ch.closed
      ensures stop == ch.closed && acts == old(acts) + [Polled(!stop)]
    {
      Others(ch);
      stop := ch.closed;
      acts := acts + [Polled(!stop)];
    }

    method OnMessage(m: Message)
      modifies this`emitted
      ensures emitted == old(emitted) + Heard(hears, [m])
    {
      if hears {
        emitted := emitted + [m];
      }
    }

    /** Runs one tool: once for each call, and directly after a poll that found the channel open. */
    method Execute(i: nat, call: ToolCall, ch: StopChannel) returns (m: Message)
      requires i !in ran && LastOpen(acts)
      modifies this`stopCh, stopCh, this`acts, this`ran
      ensures stopCh == old(stopCh) || fresh(stopCh)
      ensures old(ch.closed) ==> ch.closed
      ensures acts == old(acts) + [Started(i)]
      ensures ran == old(ran)[i := m] && m.role.Tool? && m.toolId == call.id
    {
      acts := acts + [Started(i)];
      Others(ch);
      var text: Content := *;
      m := Reply(call.id, text);
      ran := ran[i := m];
    }

    // ----- finishCancelledRound

    method FinishCancelledRound(newMsgs: seq<Message>, resp: Message, results: seq<Message>, published: nat)
      returns (out: seq<Message>)
      requires published <= |results|
      modifies this`emitted
      ensures out == newMsgs + CancelTail(resp.calls, results, published)
      ensures emitted == old(emitted) + Heard(hears, CancelTail(resp.calls, results, published))
    {
      var answered: set<string> := {};
      for i := 0 to |results|
        invariant answered == AnsweredIds(results[..i]) && emitted == old(emitted)
      {
        AnsweredGrows(results, i);
        if results[i].role.Tool? && results[i].toolId != "" {
          answered := answered + {results[i].toolId};
        }
      }
      assert results[..|results|] == results;
      var tail := results[published..];
      var calls := resp.calls;
      for i := 0 to |calls|
        invariant emitted == old(emitted)
        invariant tail + Placeholders(calls[i..], answered) == results[published..] + Placeholders(calls, AnsweredIds(results))
      {
        assert calls[i..][1..] == calls[i + 1..];
        if calls[i].id !in answered {
          var m := Reply(calls[i].id, ToolCancelled);
          Assoc(tail, [m], Placeholders(calls[i + 1..], answered + {calls[i].id}));
          answered := answered + {calls[i].id};
          tail := tail + [m];
        }
      }
      assert calls[|calls|..] == [];
      assert tail + [] == tail;
      out := Publish(newMsgs, tail);
    }

    /** Appends and emits what answers a call; empty slots are skipped. */
    method Publish(newMsgs: seq<Message>, tail: seq<Message>) returns (out: seq<Message>)
      modifies this`emitted
      ensures out == newMsgs + Publishable(tail)
      ensures emitted == old(emitted) + Heard(hears, Publishable(tail))
    {
      out := newMsgs;
      ghost var sent: seq<Message> := [];
      for i := 0 to |tail|
        invariant sent == Publishable(tail[..i])
        invariant out == newMsgs + sent && emitted == old(emitted) + Heard(hears, sent)
      {
        assert tail[..i + 1][..i] == tail[..i];
        if tail[i].role.Tool? && tail[i].toolId != "" {
          out := out + [tail[i]];
          OnMessage(tail[i]);
          HeardThen(hears, old(emitted), sent, [tail[i]]);
          sent := sent + [tail[i]];
        }
      }
      assert tail[..|tail|] == tail;
    }

    // ----- The batch

    /** Parallel and sequential indices, duplicates removed. */
    method SplitCalls(calls: seq<ToolCall>, rejected: map<nat, nat>) returns (parallel: seq<nat>, sequential: seq<nat>)
      ensures Split(|calls|, rejected, parallel, sequential)
      ensures forall i | i in parallel :: calls[i].name in parallelTools
      ensures forall i | i in sequential :: calls[i].name !in parallelTools
    {
      parallel, sequential := [], [];
      for j := 0 to |calls|
        invariant Increasing(parallel, j) && Increasing(sequential, j)
        invariant forall i: nat | i < j :: i in parallel <==> calls[i].name in parallelTools
        invariant forall i: nat | i < j :: i in sequential <==> calls[i].name !in parallelTools
      {
        if calls[j].name in parallelTools {
          parallel := parallel + [j];
        } else {
          sequential := sequential + [j];
        }
      }
      KeepIsIncreasing(parallel, rejected, |calls|);
      KeepIsIncreasing(sequential, rejected, |calls|);
      parallel, sequential := Keep(parallel, rejected), Keep(sequential, rejected);
    }

    /** One worker: a call that is cancelled before it starts leaves its slot empty. */
    method Worker(i: nat, call: ToolCall, results: array<Message>, ch: StopChannel)
      requires i < results.Length && i !in ran && results[i] == Zero
      modifies this`stopCh, stopCh, this`acts, this`ran, results
      ensures stopCh == old(stopCh) || fresh(stopCh)
      ensures old(ch.closed) ==> ch.closed && ran == old(ran)
      ensures Guarded(old(acts), acts)
      ensures forall k | 0 <= k < results.Length && k != i :: results[k] == old(results[k])
      ensures Extends(old(ran), ran, {i}) && SlotIs(ran, i, results[i]) && SlotOf(call, results[i])
      ensures i !in ran ==> ch.closed
    {
      var stop := IsCancelled(ch);
      if !stop {
        results[i] := Execute(i, call, ch);
      }
    }

    /** The fan-out: workers take the calls in any order, each polls once before it starts. */
    method RunParallel(calls: seq<ToolCall>, todo: set<nat>, results: array<Message>, ch: StopChannel)
      requires results.Length == |calls| && forall i | i in todo :: i < |calls| && i !in ran && results[i] == Zero
      modifies this`stopCh, stopCh, this`acts, this`ran, results
      ensures stopCh == old(stopCh) || fresh(stopCh)
      ensures old(ch.closed) ==> ch.closed && ran == old(ran)
      ensures Guarded(old(acts), acts)
      ensures FilledBy(calls, results, todo, ch)
      ensures Extends(old(ran), ran, todo) && forall i | i in todo :: SlotIs(ran, i, results[i])
    {
      var left := todo;
      while left != {}
        invariant left <= todo && (stopCh == old(stopCh) || fresh(stopCh)) && (old(ch.closed) ==> ch.closed && ran == old(ran))
        invariant Guarded(old(acts), acts)
        invariant forall i: nat | i < results.Length && (i !in todo || i in left) :: results[i] == old(results[i])
        invariant forall i | i in todo && i !in left :: SlotOf(calls[i], results[i]) && (results[i] == Zero ==> ch.closed)
        invariant Extends(old(ran), ran, todo - left) && forall i | i in todo - left :: SlotIs(ran, i, results[i])
        decreases |left|
      {
        var i :| i in left;
        left := left - {i};
        ghost var before := acts;
        Worker(i, calls[i], results, ch);
        GuardedOn(old(acts), before, acts);
      }
    }

    /** One node of the batch: skipped with a message that says why, or run after a poll of its own. */
    method Node(i: nat, call: ToolCall, blocked: bool, results: array<Message>, ch: StopChannel)
      requires i < results.Length && i !in ran
      modifies this`stopCh, stopCh, this`acts, this`ran, results
      ensures stopCh == old(stopCh) || fresh(stopCh)
      ensures old(ch.closed) ==> ch.closed && ran == old(ran)
      ensures Guarded(old(acts), acts)
      ensures forall k | 0 <= k < results.Length && k != i :: results[k] == old(results[k])
      ensures Extends(old(ran), ran, {i}) && (i in ran ==> results[i] == ran[i])
      ensures if blocked then i !in ran else i in ran || ch.closed
      ensures results[i].role.Tool? && results[i].toolId == call.id
    {
      var reason: Content := *;
      results[i] := Reply(call.id, reason);
      if !blocked {
        var stop := IsCancelled(ch);
        if !stop {
          results[i] := Execute(i, call, ch);
        }
      }
    }

    /** The in-batch scheduler: every node ends with a message of its own. */
    method RunDag(calls: seq<ToolCall>, parallel: seq<nat>, blocked: set<nat>, results: array<Message>, ch: StopChannel)
      requires results.Length == |calls| && Increasing(parallel, |calls|) && forall i | i in parallel :: i !in ran
      modifies this`stopCh, stopCh, this`acts, this`ran, results
      ensures stopCh == old(stopCh) || fresh(stopCh)
      ensures old(ch.closed) ==> ch.closed && ran == old(ran)
      ensures Guarded(old(acts), acts)
      ensures FilledBy(calls, results, ToSet(parallel), ch)
      ensures Extends(old(ran), ran, ToSet(parallel))
      ensures forall i | i in parallel :: results[i] != Zero && (i in ran ==> results[i] == ran[i])
      ensures forall i | i in parallel :: if i in blocked then i !in ran else i in ran || ch.closed
    {
      ghost var was := results[..];
      for k := 0 to |parallel|
        invariant (stopCh == old(stopCh) || fresh(stopCh)) && (old(ch.closed) ==> ch.closed && ran == old(ran))
        invariant Guarded(old(acts), acts)
        invariant NodesDone(calls, parallel, k, blocked, was, results[..], old(ran), ran, ch.closed)
      {
        ghost var before, had, slots, closed := acts, ran, results[..], ch.closed;
        NodeIsNew(calls, parallel, k, blocked, was, slots, old(ran), had, ch.closed);
        Node(parallel[k], calls[parallel[k]], parallel[k] in blocked, results, ch);
        GuardedOn(old(acts), before, acts);
        assert results[..] == slots[parallel[k] := results[parallel[k]]];
        NodeStep(calls, parallel, k, blocked, was, slots, old(ran), had, ran, closed, ch.closed, results[parallel[k]]);
      }
      NodesGive(calls, parallel, blocked, was, results[..], old(ran), ran, ch.closed);
    }

    /** A batch the scheduler refuses: the subagent calls get the error, the others run. */
    method RunDagInvalid(calls: seq<ToolCall>, parallel: seq<nat>, error: Content, results: array<Message>, ch: StopChannel)
      requires results.Length == |calls| && Increasing(parallel, |calls|) && forall i | i in parallel :: i !in ran && results[i] == Zero
      modifies this`stopCh, stopCh, this`acts, this`ran, results
      ensures stopCh == old(stopCh) || fresh(stopCh)
      ensures old(ch.closed) ==> ch.closed && ran == old(ran)
      ensures Guarded(old(acts), acts)
      ensures FilledBy(calls, results, ToSet(parallel), ch)
      ensures Extends(old(ran), ran, ToSet(parallel))
      ensures forall i | i in parallel :: HonestSlot(calls[i], true, DagInvalid(error), ran, i, results[i])
    {
      var others: set<nat> := set i | i in parallel && !DagEligible(calls[i]);
      for k := 0 to |parallel|
        invariant ran == old(ran) && acts == old(acts) && stopCh == old(stopCh) && ch.closed == old(ch.closed)
        invariant forall i: nat | i < results.Length ::
                    results[i] == if i in parallel[..k] && DagEligible(calls[i]) then Reply(calls[i].id, error) else old(results[i])
      {
        if DagEligible(calls[parallel[k]]) {
          results[parallel[k]] := Reply(calls[parallel[k]].id, error);
        }
      }
      assert parallel[..|parallel|] == parallel;
      RunParallel(calls, others, results, ch);
    }

    /** The next call in line, after its poll. */
    method RunNext(i: nat, call: ToolCall, results: array<Message>, ch: StopChannel) returns (stop: bool)
      requires i < results.Length && i !in ran
      modifies this`stopCh, stopCh, this`acts, this`ran, results
      ensures stopCh == old(stopCh) || fresh(stopCh)
      ensures old(ch.closed) ==> ch.closed && stop
      ensures results[..] == old(results[..])[i := results[i]]
      ensures if stop then ch.closed && ran == old(ran) && results[i] == old(results[i]) && acts == old(acts) + [Polled(false)]
              else ran == old(ran)[i := results[i]] && results[i].role.Tool? && results[i].toolId == call.id
                   && acts == old(acts) + [Polled(true), Started(i)]
    {
      stop := IsCancelled(ch);
      if !stop {
        results[i] := Execute(i, call, ch);
        assert results[..] == old(results[..])[i := results[i]];
      }
    }

    /** The calls that run one after the other, in order; a poll stands before each. */
    method RunSequential(calls: seq<ToolCall>, todo: seq<nat>, results: array<Message>, ch: StopChannel) returns (stop: bool)
      requires results.Length == |calls| && Increasing(todo, |calls|) && forall i | i in todo :: i !in ran && results[i] == Zero
      modifies this`stopCh, stopCh, this`acts, this`ran, results
      ensures stopCh == old(stopCh) || fresh(stopCh)
      ensures old(ch.closed) ==> ch.closed && ran == old(ran) && (stop || todo == [])
      ensures Guarded(old(acts), acts)
      ensures FilledBy(calls, results, ToSet(todo), ch)
      ensures Extends(old(ran), ran, ToSet(todo)) && forall i | i in todo :: SlotIs(ran, i, results[i])
      ensures if stop then ch.closed && exists k :: 0 <= k < |todo| && acts == old(acts) + (InTurn(todo[..k]) + [Polled(false)])
              else acts == old(acts) + InTurn(todo) && forall i | i in todo :: i in ran
    {
      ghost var was := results[..];
      for k := 0 to |todo|
        invariant (stopCh == old(stopCh) || fresh(stopCh)) && (old(ch.closed) ==> ch.closed && k == 0)
        invariant acts == old(acts) + InTurn(todo[..k])
        invariant InLine(calls, todo, k, was, results[..], old(ran), ran)
      {
        InLineNotRun(calls, todo, k, was, results[..], old(ran), ran);
        ghost var before, had := results[..], ran;
        stop := RunNext(todo[k], calls[todo[k]], results, ch);
        if stop {
          assert results[..] == before[todo[k] := before[todo[k]]] == before;
          StopsInTurn(old(acts), todo, k);
          InLineGives(calls, todo, k, was, results[..], old(ran), ran);
          return;
        }
        InLineStep(calls, todo, k, was, before, old(ran), had, results[todo[k]]);
        InTurnMore(old(acts), todo, k);
      }
      assert todo[..|todo|] == todo;
      InLineGives(calls, todo, |todo|, was, results[..], old(ran), ran);
      InTurnGuarded(old(acts), todo);
      stop := false;
    }

    method RunBatch(calls: seq<ToolCall>, parallel: seq<nat>, gate: Gate, results: array<Message>, ch: StopChannel)
      requires results.Length == |calls| && Increasing(parallel, |calls|) && forall i | i in parallel :: i !in ran && results[i] == Zero
      modifies this`stopCh, stopCh, this`acts, this`ran, results
      ensures stopCh == old(stopCh) || fresh(stopCh)
      ensures old(ch.closed) ==> ch.closed && ran == old(ran)
      ensures Guarded(old(acts), acts)
      ensures FilledBy(calls, results, ToSet(parallel), ch)
      ensures Extends(old(ran), ran, ToSet(parallel))
      ensures forall i | i in parallel :: HonestSlot(calls[i], true, gate, ran, i, results[i])
      ensures forall i | i in parallel && Due(calls[i], true, gate, i) :: i in ran || ch.closed
    {
      match gate
      case Flat => RunParallel(calls, ToSet(parallel), results, ch);
      case Dag(blocked) => RunDag(calls, parallel, blocked, results, ch);
      case DagInvalid(error) => RunDagInvalid(calls, parallel, error, results, ch);
    }

    /** The rejected slots, once the winners are known. */
    method FinalizeRejected(calls: seq<ToolCall>, rejected: map<nat, nat>, order: seq<nat>, results: array<Message>)
      requires results.Length == |calls| && Kept(|calls|, rejected, order)
      modifies results
      ensures forall i: nat | i < results.Length && i !in rejected :: results[i] == old(results[i])
      ensures PointAtWinners(calls, rejected, results[..])
    {
      ghost var was, done := results[..], {};
      for a := 0 to |order|
        invariant forall b | 0 <= b < a :: order[b] in done
        invariant forall j | j in done :: j in rejected
        invariant forall i: nat | i < results.Length :: results[i] == if i in done then Rejection(calls, rejected, was, i) else was[i]
      {
        var j := order[a];
        assert j in order && rejected[j] !in done;
        var winner := results[rejected[j]];
        results[j] := Reply(calls[j].id, RejectedDuplicate(calls[j].name, winner.toolId, winner.content));
        done := done + {j};
      }
      forall j | j in rejected
        ensures results[j] == Rejection(calls, rejected, was, j)
      {
        assert j in order;
      }
    }

    /** The poll that stands before a delivery when someone listens. */
    method PolledBefore(ch: StopChannel) returns (stop: bool)
      modifies this`stopCh, stopCh, this`acts
      ensures stopCh == old(stopCh) || fresh(stopCh)
      ensures old(ch.closed) ==> ch.closed
      ensures if hears then stop == ch.closed && acts == old(acts) + [Polled(!stop)] else !stop && acts == old(acts)
    {
      stop := false;
      if hears {
        stop := IsCancelled(ch);
      }
    }

    /** Publishes in call order; a poll stands before each message when someone listens. */
    method PublishResults(newMsgs: seq<Message>, resp: Message, rs: seq<Message>, ch: StopChannel)
      returns (out: seq<Message>, next: Next, ghost sent: seq<Message>)
      requires |rs| == |resp.calls| && Zero !in rs
      modifies this`stopCh, stopCh, this`acts, this`emitted
      ensures stopCh == old(stopCh) || fresh(stopCh)
      ensures old(ch.closed) ==> ch.closed
      ensures out == newMsgs + sent && emitted == old(emitted) + Heard(hears, sent)
      ensures next.Stopped? ==>
                && hears && ch.closed
                && exists k: nat :: k < |rs| && sent == rs[..k] + CancelTail(resp.calls, rs, k) && Zero !in rs[..k]
                                    && acts == old(acts) + (Polls(k) + [Polled(false)])
      ensures !next.Done?
      ensures !next.Stopped? ==>
                && sent == rs && acts == old(acts) + (if hears then Polls(|rs|) else [])
                && (next.Paused? <==> exists i :: 0 <= i < |rs| && UnansweredAsk(rs[i].content))
    {
      out, next, sent := newMsgs, Continue, [];
      for ri := 0 to |rs|
        invariant (stopCh == old(stopCh) || fresh(stopCh)) && (old(ch.closed) ==> ch.closed)
        invariant acts == old(acts) + (if hears then Polls(ri) else [])
        invariant sent == rs[..ri] && out == newMsgs + sent && emitted == old(emitted) + Heard(hears, sent)
        invariant !next.Stopped? && !next.Done? && (next.Paused? <==> exists i :: 0 <= i < ri && UnansweredAsk(rs[i].content))
      {
        var stop := PolledBefore(ch);
        if stop {
          out := FinishCancelledRound(out, resp, rs, ri);
          HeardThen(hears, old(emitted), sent, CancelTail(resp.calls, rs, ri));
          sent := sent + CancelTail(resp.calls, rs, ri);
          Assoc(old(acts), Polls(ri), [Polled(false)]);
          return out, Stopped, sent;
        }
        OnePollMore(old(acts), ri);
        out := out + [rs[ri]];
        OnMessage(rs[ri]);
        HeardThen(hears, old(emitted), sent, [rs[ri]]);
        assert rs[..ri + 1] == rs[..ri] + [rs[ri]];
        sent := sent + [rs[ri]];
        if UnansweredAsk(rs[ri].content) {
          next := Paused;
        }
      }
    }

    method HandOver(newMsgs: seq<Message>, handoff: Option<Message>) returns (out: seq<Message>, ghost head: seq<Message>)
      modifies this`emitted
      ensures head == if handoff.Some? then [handoff.value] else []
      ensures out == newMsgs + head && emitted == old(emitted) + Heard(hears, head)
    {
      out, head := newMsgs, [];
      if handoff.Some? {
        out := out + [handoff.value];
        OnMessage(handoff.value);
        head := [handoff.value];
      }
      assert handoff.None? ==> emitted == old(emitted) + Heard(hears, head);
    }

    /** The parallel calls, the reconciliation of their group, and the sequential calls; mid is what ran before the latter. */
    method RunLists(newMsgs: seq<Message>, calls: seq<ToolCall>, parallel: seq<nat>, sequential: seq<nat>, gate: Gate,
                    handoff: Option<Message>, results: array<Message>, ch: StopChannel)
      returns (out: seq<Message>, stop: bool, ghost head: seq<Message>, ghost mid: map<nat, Message>)
      requires results.Length == |calls| && ran == map[] && forall i | 0 <= i < results.Length :: results[i] == Zero
      requires Increasing(parallel, |calls|) && Increasing(sequential, |calls|) && forall i | i in parallel :: i !in sequential
      modifies this`stopCh, stopCh, this`acts, this`ran, this`emitted, results
      ensures stopCh == old(stopCh) || fresh(stopCh)
      ensures old(ch.closed) ==> ch.closed && (stop || sequential == []) && ran == map[]
      ensures Guarded(old(acts), acts)
      ensures stop ==> ch.closed
      ensures FilledBy(calls, results, ToSet(parallel) + ToSet(sequential), ch)
      ensures Extends(map[], mid, ToSet(parallel)) && Extends(mid, ran, ToSet(sequential))
      ensures forall i | i in parallel :: HonestSlot(calls[i], true, gate, mid, i, results[i])
      ensures forall i | i in parallel && Due(calls[i], true, gate, i) :: i in mid || ch.closed
      ensures forall i | i in sequential :: SlotIs(ran, i, results[i]) && (!stop ==> i in ran)
      ensures head == if parallel != [] && handoff.Some? then [handoff.value] else []
      ensures out == newMsgs + head && emitted == old(emitted) + Heard(hears, head)
    {
      if parallel != [] {
        RunBatch(calls, parallel, gate, results, ch);
      }
      ghost var batched := acts;
      mid := ran;
      out, head := HandOver(newMsgs, if parallel != [] then handoff else None);
      stop := RunSequential(calls, sequential, results, ch);
      GuardedOn(old(acts), batched, acts);
    }

    /**
      Fills the slots of the dispatched calls, hands the group's reconciliation over
      after the parallel ones; stop tells whether a poll saw the cancellation.
    */
    method Dispatch(newMsgs: seq<Message>, calls: seq<ToolCall>, rejected: map<nat, nat>, gate: Gate, handoff: Option<Message>,
                    results: array<Message>, ch: StopChannel) returns (out: seq<Message>, stop: bool, ghost head: seq<Message>)
      requires results.Length == |calls| && ran == map[] && forall i | 0 <= i < results.Length :: results[i] == Zero
      modifies this`stopCh, stopCh, this`acts, this`ran, this`emitted, results
      ensures stopCh == old(stopCh) || fresh(stopCh)
      ensures old(ch.closed) ==> ch.closed && stop && ran == map[]
      ensures Guarded(old(acts), acts)
      ensures stop ==> ch.closed
      ensures Slots(calls, results[..]) && Honest(calls, parallelTools, rejected, gate, ran, results[..])
      ensures forall i: nat | i < |calls| && i in rejected :: results[i] == Zero
      ensures !stop ==> LastOpen(acts) && forall i: nat | i < |calls| && i !in rejected :: results[i] != Zero
      ensures !stop ==> AllDueRan(calls, parallelTools, rejected, gate, ran)
      ensures head == HeadOf(calls, parallelTools, rejected, handoff)
      ensures out == newMsgs + head && emitted == old(emitted) + Heard(hears, head)
    {
      var parallel, sequential := SplitCalls(calls, rejected);
      HeadIs(calls, parallelTools, rejected, parallel, sequential, handoff);
      ghost var mid;
      out, stop, head, mid := RunLists(newMsgs, calls, parallel, sequential, gate, handoff, results, ch);
      AllHonest(calls, parallelTools, rejected, gate, parallel, sequential, mid, ran, results[..]);
      if !stop {
        ghost var before := acts;
        stop := IsCancelled(ch);
        GuardedOn(old(acts), before, acts);
        if !stop {
          DueOnesRan(calls, parallelTools, rejected, gate, parallel, sequential, mid, ran);
        }
      }
    }

    /** Fills in the rejected slots and publishes. */
    method Settle(newMsgs: seq<Message>, resp: Message, rejected: map<nat, nat>, order: seq<nat>, ghost head: seq<Message>,
                  results: array<Message>, ch: StopChannel) returns (out: seq<Message>, next: Next, ghost round: Outcome)
      requires Slots(resp.calls, results[..]) && Kept(|resp.calls|, rejected, order)
      requires forall i: nat | i < |resp.calls| && i !in rejected :: results[i] != Zero
      modifies this`stopCh, stopCh, this`acts, this`emitted, results
      ensures stopCh == old(stopCh) || fresh(stopCh)
      ensures old(ch.closed) ==> ch.closed
      ensures Guarded(old(acts), acts)
      ensures forall i: nat | i < |resp.calls| && i !in rejected :: results[i] == old(results[i])
      ensures round.head == head && round.rejected == rejected && round.rs == results[..]
      ensures out == newMsgs + round.sent && emitted == old(emitted) + Heard(hears, round.sent)
      ensures Slots(resp.calls, round.rs)
      ensures !next.Done?
      ensures next.Stopped? ==> ch.closed && round.ClosedAfterSome(resp.calls)
      ensures !next.Stopped? ==> round.Completed(resp.calls) && (next.Paused? <==> round.Asks())
    {
      ghost var was := results[..];
      FinalizeRejected(resp.calls, rejected, order, results);
      FinalSlots(resp.calls, rejected, was, results[..]);
      ghost var sent;
      out, next, sent := PublishResults(newMsgs, resp, results[..], ch);
      round := Outcome(rejected, head, results[..], sent);
    }

    /** Dispatch, then publish or close the round. */
    method AnswerBatch(newMsgs: seq<Message>, resp: Message, rejected: map<nat, nat>, order: seq<nat>, gate: Gate,
                       handoff: Option<Message>, ch: StopChannel)
      returns (out: seq<Message>, next: Next, ghost round: Outcome)
      requires Kept(|resp.calls|, rejected, order)
      modifies this`stopCh, stopCh, this`acts, this`ran, this`emitted
      ensures stopCh == old(stopCh) || fresh(stopCh)
      ensures old(ch.closed) ==> ch.closed && next.Stopped? && ran == map[]
      ensures Guarded(old(acts), acts)
      ensures out == newMsgs + round.Tail() && emitted == old(emitted) + Heard(hears, round.Tail())
      ensures round.Fits(resp.calls, handoff) && round.rejected == rejected
      ensures round.head == HeadOf(resp.calls, parallelTools, rejected, handoff)
      ensures Honest(resp.calls, parallelTools, rejected, gate, ran, round.rs)
      ensures !next.Done? && (next.Stopped? ==> ch.closed)
      ensures !next.Stopped? ==> round.Completed(resp.calls) && (next.Paused? <==> round.Asks())
      ensures !next.Stopped? ==> AllDueRan(resp.calls, parallelTools, rejected, gate, ran)
    {
      var results := new Message[|resp.calls|](_ => Zero);
      ran := map[];
      var stop;
      ghost var head;
      out, stop, head := Dispatch(newMsgs, resp.calls, rejected, gate, handoff, results, ch);
      ghost var dispatched := acts;
      if stop {
        out := FinishCancelledRound(out, resp, results[..], 0);
        next := Stopped;
        round := Outcome(rejected, head, results[..], CancelTail(resp.calls, results[..], 0));
        ClosedAtOnce(round, resp.calls);
      } else {
        out, next, round := Settle(out, resp, rejected, order, head, results, ch);
        GuardedOn(old(acts), dispatched, acts);
      }
      HeardThen(hears, old(emitted), head, round.sent);
      Assoc(newMsgs, head, round.sent);
    }

    /** The round after the assistant message is out. */
    method Answer(newMsgs: seq<Message>, resp: Message, gate: Gate, handoff: Option<Message>, ch: StopChannel)
      returns (out: seq<Message>, next: Next, ghost round: Outcome)
      modifies this`stopCh, stopCh, this`acts, this`ran, this`emitted
      ensures stopCh == old(stopCh) || fresh(stopCh)
      ensures old(ch.closed) ==> ch.closed && next.Stopped? && ran == map[]
      ensures Guarded(old(acts), acts)
      ensures out == newMsgs + round.Tail() && emitted == old(emitted) + Heard(hears, round.Tail())
      ensures round.Fits(resp.calls, handoff) && Rejects(resp.calls, round.rejected)
      ensures round.head == HeadOf(resp.calls, parallelTools, round.rejected, handoff)
      ensures Honest(resp.calls, parallelTools, round.rejected, gate, ran, round.rs)
      ensures !next.Done? && (next.Stopped? ==> ch.closed)
      ensures !next.Stopped? ==> round.Completed(resp.calls) && (next.Paused? <==> round.Asks())
      ensures !next.Stopped? ==> AllDueRan(resp.calls, parallelTools, round.rejected, gate, ran)
    {
      var rejected, order := DuplicateToolCallIndices(resp.calls);
      out, next, round := AnswerBatch(newMsgs, resp, rejected, order, gate, handoff, ch);
    }

    /** Appends the model's message, delivers it and answers its calls. */
    method Respond(newMsgs: seq<Message>, resp: Message, gate: Gate, handoff: Option<Message>, ch: StopChannel)
      returns (out: seq<Message>, next: Next, ghost round: Outcome)
      modifies this`stopCh, stopCh, this`acts, this`ran, this`emitted
      ensures stopCh == old(stopCh) || fresh(stopCh)
      ensures old(ch.closed) ==> ch.closed && next.Stopped?
      ensures Guarded(old(acts), acts)
      ensures out == (newMsgs + [resp]) + round.Tail()
      ensures emitted == old(emitted) + Heard(hears, [resp] + round.Tail())
              || (next.Stopped? && emitted == old(emitted) + Heard(hears, round.Tail()))
      ensures round.Fits(resp.calls, handoff)
      ensures hears && old(ch.closed) ==> round.rs == [] && ran == old(ran)
      ensures (Rejects(resp.calls, round.rejected) && Honest(resp.calls, parallelTools, round.rejected, gate, ran, round.rs)
               && round.head == HeadOf(resp.calls, parallelTools, round.rejected, handoff))
              || (hears && next.Stopped? && round.rs == [] && ran == old(ran))
      ensures !next.Done? && (next.Stopped? ==> ch.closed)
      ensures !next.Stopped? ==> round.Completed(resp.calls) && (next.Paused? <==> round.Asks())
      ensures !next.Stopped? ==> AllDueRan(resp.calls, parallelTools, round.rejected, gate, ran)
    {
      out := newMsgs + [resp];
      if hears {
        var stop := IsCancelled(ch);
        if stop {
          out := FinishCancelledRound(out, resp, [], 0);
          round := Outcome(map[], [], [], CancelTail(resp.calls, [], 0));
          EarlyCloseFits(round, resp.calls, handoff);
          return out, Stopped, round;
        }
      }
      OnMessage(resp);
      ghost var before := acts;
      out, next, round := Answer(out, resp, gate, handoff, ch);
      GuardedOn(old(acts), before, acts);
      HeardThen(hears, old(emitted), [resp], round.Tail());
    }

    /** The messages so far are the log's, and a listener has seen them all since base. */
    ghost predicate Told(base: seq<Message>, newMsgs: seq<Message>, log: seq<Segment>)
      reads this`emitted
    {
      newMsgs == Transcript(log) && LogOk(log) && emitted == base + Heard(hears, newMsgs)
    }

    /** Step is under way: every round so far was completed and leaves no question. */
    ghost predicate InSync(base: seq<Message>, newMsgs: seq<Message>, log: seq<Segment>)
      reads this`emitted
    {
      Told(base, newMsgs, log) && AllCalm(log)
    }

    /** Step was cut off: a listener misses at most the message that opens the last segment. */
    ghost predicate Cut(base: seq<Message>, log: seq<Segment>, ch: StopChannel)
      reads this`emitted, ch
    {
      && ch.closed
      && (emitted == base + Heard(hears, Transcript(log))
          || emitted == base + Heard(hears, Transcript(Front(log)) + Answered(log)))
    }

    /** A message of the user's own: appended and delivered. */
    method Deliver(newMsgs: seq<Message>, m: Message, ghost base: seq<Message>, ghost log: seq<Segment>)
      returns (out: seq<Message>, ghost more: seq<Segment>)
      requires InSync(base, newMsgs, log) && m.calls == []
      modifies this`emitted
      ensures InSync(base, out, more) && more == log + [Plain(m)] && Openings(more) == Openings(log) + [m]
    {
      LogMore(log, Plain(m));
      HeardThen(hears, base, newMsgs, [m]);
      out, more := newMsgs + [m], log + [Plain(m)];
      OnMessage(m);
    }

    /** Messages queued by the user while tools were running. */
    method DrainQueue(newMsgs: seq<Message>, queued: seq<Content>, ghost base: seq<Message>, ghost log: seq<Segment>)
      returns (out: seq<Message>, ghost more: seq<Segment>)
      requires InSync(base, newMsgs, log)
      modifies this`emitted
      ensures InSync(base, out, more) && Openings(more) == Openings(log) + FromUser(queued)
    {
      out, more := newMsgs, log;
      for i := 0 to |queued|
        invariant InSync(base, out, more) && Openings(more) == Openings(log) + FromUser(queued[..i])
      {
        var m := Message(User, "", queued[i], []);
        FromUserMore(queued, i);
        Assoc(Openings(log), FromUser(queued[..i]), [m]);
        out, more := Deliver(out, m, base, more);
      }
      assert queued[..|queued|] == queued;
    }

    /** The reply at the step limit: a summary request, then whatever the model says. */
    method Summarize(newMsgs: seq<Message>, reply: Option<Message>, ch: StopChannel)
      returns (out: seq<Message>, exit: Exit, ghost last: seq<Message>)
      requires reply.Some? ==> reply.value.role.Assistant?
      modifies this`stopCh, stopCh, this`acts, this`emitted
      ensures stopCh == old(stopCh) || fresh(stopCh)
      ensures Guarded(old(acts), acts)
      ensures old(ch.closed) ==> ch.closed
      ensures out == newMsgs + last && LimitEnd(last)
      ensures match exit
              case Errored => reply.None? && |last| == 1 && emitted == old(emitted)
              case Interrupted => reply.Some? && ch.closed && |last| == 1 && emitted == old(emitted)
              case LimitReached =>
                && reply.Some? && LastOpen(acts) && |last| == 2 && last[1] == reply.value
                && emitted == old(emitted) + Heard(hears, [reply.value])
              case _ => false
    {
      var ask: Content := *;
      var m := Message(User, "", ask, []);
      out, last := newMsgs + [m], [m];
      if reply.None? {
        return out, Errored, last;
      }
      var stop := IsCancelled(ch);
      if stop {
        return out, Interrupted, last;
      }
      out, last := out + [reply.value], last + [reply.value];
      OnMessage(reply.value);
      exit := LimitReached;
    }

    /** A final answer; a review sends the loop around once more. */
    method FinalReply(newMsgs: seq<Message>, resp: Message, review: Option<Content>, ch: StopChannel,
                      ghost base: seq<Message>, ghost log: seq<Segment>)
      returns (out: seq<Message>, next: Next, ghost more: seq<Segment>)
      requires InSync(base, newMsgs, log) && resp.calls == []
      modifies this`stopCh, stopCh, this`acts, this`emitted
      ensures stopCh == old(stopCh) || fresh(stopCh)
      ensures Guarded(old(acts), acts)
      ensures old(ch.closed) ==> ch.closed
      ensures out == Transcript(more) && LogOk(more) && AllCalm(more)
      ensures Openings(more) == Openings(log) + [resp] + ReviewOf(review) || (next.Stopped? && Openings(more) == Openings(log) + [resp])
      ensures hears && old(ch.closed) ==> next.Stopped? && emitted == old(emitted)
      ensures if next.Stopped? then hears && Cut(base, more, ch) else InSync(base, out, more) && (hears ==> LastOpen(acts))
      ensures !next.Paused? && (next.Done? ==> review.None?) && (next.Continue? ==> review.Some?)
    {
      LogMore(log, Plain(resp));
      HeardThen(hears, base, newMsgs, [resp]);
      NothingBehind(log, resp);
      out, more, next := newMsgs + [resp], log + [Plain(resp)], Done;
      var stop := PolledBefore(ch);
      if stop {
        return out, Stopped, more;
      }
      OnMessage(resp);
      if review.Some? {
        ghost var before := acts;
        out, next, more := SendBack(out, Message(User, "", review.value, []), ch, base, more);
        GuardedOn(old(acts), before, acts);
      }
    }

    /** The review of a final answer: appended, then delivered unless a poll says otherwise. */
    method SendBack(newMsgs: seq<Message>, m: Message, ch: StopChannel, ghost base: seq<Message>, ghost log: seq<Segment>)
      returns (out: seq<Message>, next: Next, ghost more: seq<Segment>)
      requires InSync(base, newMsgs, log) && m.calls == []
      modifies this`stopCh, stopCh, this`acts, this`emitted
      ensures stopCh == old(stopCh) || fresh(stopCh)
      ensures Guarded(old(acts), acts)
      ensures old(ch.closed) ==> ch.closed
      ensures out == Transcript(more) && LogOk(more) && AllCalm(more) && Openings(more) == Openings(log) + [m]
      ensures hears && old(ch.closed) ==> next.Stopped? && emitted == old(emitted)
      ensures if next.Stopped? then hears && Cut(base, more, ch) else next.Continue? && InSync(base, out, more) && (hears ==> LastOpen(acts))
    {
      LogMore(log, Plain(m));
      HeardThen(hears, base, newMsgs, [m]);
      NothingBehind(log, m);
      out, more, next := newMsgs + [m], log + [Plain(m)], Continue;
      var stop := PolledBefore(ch);
      if stop {
        return out, Stopped, more;
      }
      OnMessage(m);
    }

    /** A reply that asks for calls, and its round. */
    method RoundReply(newMsgs: seq<Message>, resp: Message, ch: StopChannel, ghost base: seq<Message>, ghost log: seq<Segment>)
      returns (out: seq<Message>, next: Next, ghost more: seq<Segment>)
      requires InSync(base, newMsgs, log)
      modifies this`stopCh, stopCh, this`acts, this`ran, this`emitted
      ensures stopCh == old(stopCh) || fresh(stopCh)
      ensures Guarded(old(acts), acts)
      ensures old(ch.closed) ==> ch.closed && next.Stopped?
      ensures out == Transcript(more) && LogOk(more) && Openings(more) == Openings(log) + [resp] && AllCalm(Front(more))
      ensures !next.Done? && (next.Stopped? ==> Cut(base, more, ch))
      ensures next.Paused? ==> Told(base, out, more) && AsksLast(more)
      ensures next.Continue? ==> InSync(base, out, more)
    {
      var gate: Gate := *;
      var notes: Content := *;
      var grouped: bool := *;
      var handoff := if grouped then Some(Message(System, "", notes, [])) else None;
      ghost var round;
      out, next, round := Respond(newMsgs, resp, gate, handoff, ch);
      more := log + [Round(resp, handoff, round)];
      LogMore(log, Round(resp, handoff, round));
      RoundLogged(newMsgs, log, resp, handoff, round);
      HeardThen(hears, base, newMsgs, [resp] + round.Tail());
      HeardThen(hears, base, newMsgs, round.Tail());
      Assoc(newMsgs, [resp], round.Tail());
    }

    /** A reply that asks for calls, its round, and perhaps a review. */
    method CallingReply(newMsgs: seq<Message>, resp: Message, review: Option<Content>, ch: StopChannel,
                        ghost base: seq<Message>, ghost log: seq<Segment>)
      returns (out: seq<Message>, next: Next, ghost more: seq<Segment>)
      requires InSync(base, newMsgs, log)
      modifies this`stopCh, stopCh, this`acts, this`ran, this`emitted
      ensures stopCh == old(stopCh) || fresh(stopCh)
      ensures Guarded(old(acts), acts)
      ensures old(ch.closed) ==> ch.closed && next.Stopped?
      ensures out == Transcript(more) && LogOk(more) && AllCalm(Front(more))
      ensures Openings(more) == Openings(log) + [resp] + if next.Continue? then ReviewOf(review) else []
      ensures !next.Done? && (next.Stopped? ==> Cut(base, more, ch))
      ensures next.Paused? ==> Told(base, out, more) && AsksLast(more)
      ensures next.Continue? ==> InSync(base, out, more) && (review.Some? ==> LastOpen(acts))
    {
      out, next, more := RoundReply(newMsgs, resp, ch, base, log);
      if next.Continue? && review.Some? {
        ghost var before := acts;
        var stop := IsCancelled(ch);
        GuardedOn(old(acts), before, acts);
        if stop {
          return out, Stopped, more;
        }
        out, more := Deliver(out, Message(User, "", review.value, []), base, more);
      }
    }

    /** Step is over: why, and what a listener has seen. */
    ghost predicate Over(exit: Exit, script: Script, limit: nat, i: nat, due: seq<Message>, log: seq<Segment>, last: seq<Message>,
                         base: seq<Message>, ch: StopChannel)
      reads this`emitted, ch
    {
      && Ended(exit, script, limit, i, due, log, last)
      && if exit.Interrupted? then Cut(base, log, ch) else emitted == base + Heard(hears, Delivered(exit, log, last))
    }

    /** The turn is done and the next one is due: its reply did not end Step. */
    ghost predicate Next(script: Script, i: nat, due: seq<Message>, out: seq<Message>, log: seq<Segment>, base: seq<Message>)
      reads this`emitted
    {
      script.GoesOn(i) && InSync(base, out, log) && Openings(log) == script.Reviewed(due, i)
    }

    /** A turn whose reply is final, unless a review sends it back. */
    method FinalTurn(newMsgs: seq<Message>, i: nat, limit: nat, script: Script, ch: StopChannel,
                     ghost due: seq<Message>, ghost base: seq<Message>, ghost log: seq<Segment>)
      returns (out: seq<Message>, exit: Option<Exit>, ghost more: seq<Segment>)
      requires i < limit && script.model(i).Some? && InSync(base, newMsgs, log) && Openings(log) == script.Begun(due, i)
      requires script.model(i).value.calls == []
      modifies this`stopCh, stopCh, this`acts, this`emitted
      ensures stopCh == old(stopCh) || fresh(stopCh)
      ensures Guarded(old(acts), acts)
      ensures out == Transcript(more)
      ensures if exit.Some? then Over(exit.value, script, limit, i, due, more, [], base, ch) else Next(script, i, due, out, more, base)
    {
      var next;
      out, next, more := FinalReply(newMsgs, script.model(i).value, script.review(i), ch, base, log);
      exit := match next
              case Continue => None
              case Stopped => Some(Interrupted)
              case _ => Some(Finished);
      ReviewedIs(script, due, i);
      FrontIsCalm(more);
      if next.Stopped? {
        CutEnds(script, limit, i, due, more);
      } else if next.Done? {
        FinishedEnds(script, limit, i, due, more);
      }
    }

    /** A turn whose reply asks for calls. */
    method CallingTurn(newMsgs: seq<Message>, i: nat, limit: nat, script: Script, ch: StopChannel,
                     ghost due: seq<Message>, ghost base: seq<Message>, ghost log: seq<Segment>)
      returns (out: seq<Message>, exit: Option<Exit>, ghost more: seq<Segment>)
      requires i < limit && script.model(i).Some? && InSync(base, newMsgs, log) && Openings(log) == script.Begun(due, i)
      requires script.model(i).value.calls != []
      modifies this`stopCh, stopCh, this`acts, this`ran, this`emitted
      ensures stopCh == old(stopCh) || fresh(stopCh)
      ensures Guarded(old(acts), acts)
      ensures out == Transcript(more)
      ensures if exit.Some? then Over(exit.value, script, limit, i, due, more, [], base, ch) else Next(script, i, due, out, more, base)
    {
      var next;
      out, next, more := CallingReply(newMsgs, script.model(i).value, script.review(i), ch, base, log);
      exit := match next
              case Continue => None
              case Stopped => Some(Interrupted)
              case _ => Some(Asked);
      ReviewedIs(script, due, i);
      if next.Stopped? {
        CutEnds(script, limit, i, due, more);
      } else if next.Paused? {
        AskedEnds(script, limit, i, due, more);
      }
    }

    /** One reply of the model and everything it leads to. */
    method TakeReply(newMsgs: seq<Message>, i: nat, limit: nat, script: Script, ch: StopChannel,
                     ghost due: seq<Message>, ghost base: seq<Message>, ghost log: seq<Segment>)
      returns (out: seq<Message>, exit: Option<Exit>, ghost more: seq<Segment>)
      requires i < limit && script.model(i).Some? && InSync(base, newMsgs, log) && Openings(log) == script.Begun(due, i)
      modifies this`stopCh, stopCh, this`acts, this`ran, this`emitted
      ensures stopCh == old(stopCh) || fresh(stopCh)
      ensures Guarded(old(acts), acts)
      ensures out == Transcript(more)
      ensures if exit.Some? then Over(exit.value, script, limit, i, due, more, [], base, ch) else Next(script, i, due, out, more, base)
    {
      if script.model(i).value.calls == [] {
        out, exit, more := FinalTurn(newMsgs, i, limit, script, ch, due, base, log);
      } else {
        out, exit, more := CallingTurn(newMsgs, i, limit, script, ch, due, base, log);
      }
    }

    /** The poll after the model has answered: a reply that comes in after a cancellation is dropped. */
    method PolledReply(newMsgs: seq<Message>, i: nat, limit: nat, script: Script, ch: StopChannel,
                       ghost due: seq<Message>, ghost base: seq<Message>, ghost log: seq<Segment>)
      returns (out: seq<Message>, exit: Option<Exit>, ghost more: seq<Segment>)
      requires i < limit && script.model(i).Some? && InSync(base, newMsgs, log) && Openings(log) == script.Begun(due, i)
      modifies this`stopCh, stopCh, this`acts, this`ran, this`emitted
      ensures stopCh == old(stopCh) || fresh(stopCh)
      ensures Guarded(old(acts), acts)
      ensures out == Transcript(more)
      ensures old(ch.closed) ==> exit == Some(Interrupted) && out == newMsgs && emitted == old(emitted) && ran == old(ran)
      ensures if exit.Some? then Over(exit.value, script, limit, i, due, more, [], base, ch) else Next(script, i, due, out, more, base)
    {
      var stop := IsCancelled(ch);
      if stop {
        return newMsgs, Some(Interrupted), log;
      }
      ghost var before := acts;
      out, exit, more := TakeReply(newMsgs, i, limit, script, ch, due, base, log);
      GuardedOn(old(acts), before, acts);
    }

    /** The turn at the step limit. */
    method LastTurn(newMsgs: seq<Message>, i: nat, script: Script, ch: StopChannel,
                    ghost due: seq<Message>, ghost base: seq<Message>, ghost log: seq<Segment>)
      returns (out: seq<Message>, exit: Exit, ghost last: seq<Message>)
      requires script.Ok() && InSync(base, newMsgs, log) && Openings(log) == script.Begun(due, i)
      modifies this`stopCh, stopCh, this`acts, this`emitted
      ensures stopCh == old(stopCh) || fresh(stopCh)
      ensures Guarded(old(acts), acts)
      ensures out == newMsgs + last && Over(exit, script, i, i, due, log, last, base, ch)
    {
      var reply := script.model(i);
      HeardThen(hears, base, newMsgs, if reply.Some? then [reply.value] else []);
      out, exit, last := Summarize(newMsgs, reply, ch);
    }

    /** A turn after its first poll: the queue, then the limit, the model's failure or its reply. */
    method Proceed(newMsgs: seq<Message>, i: nat, limit: nat, script: Script, ch: StopChannel,
                   ghost due: seq<Message>, ghost base: seq<Message>, ghost log: seq<Segment>)
      returns (out: seq<Message>, exit: Option<Exit>, ghost more: seq<Segment>, ghost last: seq<Message>)
      requires script.Ok() && InSync(base, newMsgs, log) && Openings(log) == due && i <= limit
      modifies this`stopCh, stopCh, this`acts, this`ran, this`emitted
      ensures stopCh == old(stopCh) || fresh(stopCh)
      ensures Guarded(old(acts), acts)
      ensures out == Transcript(more) + last
      ensures if exit.Some? then Over(exit.value, script, limit, i, due, more, last, base, ch)
              else i < limit && last == [] && Next(script, i, due, out, more, base)
    {
      last := [];
      out, more := DrainQueue(newMsgs, script.queue(i), base, log);
      if i >= limit {
        var why;
        out, why, last := LastTurn(out, i, script, ch, due, base, more);
        exit := Some(why);
      } else if script.model(i).None? {
        exit := Some(Errored);
      } else {
        out, exit, more := PolledReply(out, i, limit, script, ch, due, base, more);
      }
    }

    /** One turn of the loop; None goes on with the next. Once cancelled it does nothing. */
    method Turn(newMsgs: seq<Message>, i: nat, limit: nat, script: Script, ch: StopChannel,
                ghost due: seq<Message>, ghost base: seq<Message>, ghost log: seq<Segment>)
      returns (out: seq<Message>, exit: Option<Exit>, ghost more: seq<Segment>, ghost last: seq<Message>)
      requires script.Ok() && InSync(base, newMsgs, log) && Openings(log) == due && i <= limit
      modifies this`stopCh, stopCh, this`acts, this`ran, this`emitted
      ensures stopCh == old(stopCh) || fresh(stopCh)
      ensures Guarded(old(acts), acts)
      ensures out == Transcript(more) + last
      ensures old(ch.closed) ==> exit == Some(Interrupted) && out == newMsgs && emitted == old(emitted) && ran == old(ran)
      ensures if exit.Some? then Over(exit.value, script, limit, i, due, more, last, base, ch)
              else i < limit && last == [] && Next(script, i, due, out, more, base)
    {
      var stop := IsCancelled(ch);
      if stop {
        return newMsgs, Some(Interrupted), log, [];
      }
      ghost var before := acts;
      out, exit, more, last := Proceed(newMsgs, i, limit, script, ch, due, base, log);
      GuardedOn(old(acts), before, acts);
    }

    /** Where the loop stands before turn i, or with Step over in it. */
    ghost predicate Stands(why: Option<Exit>, script: Script, limit: nat, i: nat, due: seq<Message>, out: seq<Message>,
                           log: seq<Segment>, last: seq<Message>, base: seq<Message>, ch: StopChannel)
      reads this`emitted, ch
    {
      && i <= limit && due == script.Before(i) && (forall j: nat | j < i :: script.GoesOn(j))
      && if why.None? then InSync(base, out, log) && Openings(log) == due
         else out == Transcript(log) + last && Over(why.value, script, limit, i, due, log, last, base, ch)
    }

    /** One iteration: Step is over, or the next turn is due. */
    method Advance(newMsgs: seq<Message>, i: nat, limit: nat, script: Script, ch: StopChannel,
                   ghost due: seq<Message>, ghost base: seq<Message>, ghost log: seq<Segment>)
      returns (out: seq<Message>, why: Option<Exit>, turn: nat, ghost next: seq<Message>, ghost more: seq<Segment>, ghost last: seq<Message>)
      requires script.Ok() && Stands(None, script, limit, i, due, newMsgs, log, [], base, ch)
      modifies this`stopCh, stopCh, this`acts, this`ran, this`emitted
      ensures stopCh == old(stopCh) || fresh(stopCh)
      ensures Guarded(old(acts), acts)
      ensures turn == if why.None? then i + 1 else i
      ensures Stands(why, script, limit, turn, next, out, more, last, base, ch)
    {
      out, why, more, last := Turn(newMsgs, i, limit, script, ch, due, base, log);
      turn, next := i, due;
      if why.None? {
        NextIsDue(script, i, due);
        turn, next := i + 1, script.Reviewed(due, i);
      }
    }

    /**
      The loop of Step, from the first poll to every return. What the user queues, what
      the model says and what the advisor adds at each turn are inputs; tools are
      arbitrary. No message of theirs is lost or moved, and each way out has its reason;
      turn is the one it ended in.
    */
    method Turns(limit: nat, script: Script, ch: StopChannel, ghost base: seq<Message>)
      returns (out: seq<Message>, exit: Exit, turn: nat, ghost due: seq<Message>, ghost log: seq<Segment>, ghost last: seq<Message>)
      requires script.Ok() && InSync(base, [], [])
      modifies this`stopCh, stopCh, this`acts, this`ran, this`emitted
      ensures Guarded(old(acts), acts)
      ensures out == Transcript(log) + last && due == script.Before(turn)
      ensures Over(exit, script, limit, turn, due, log, last, base, ch)
      ensures forall j: nat | j < turn :: script.GoesOn(j)
    {
      var why: Option<Exit>;
      out, why, turn, due, log, last := [], None, 0, [], [], [];
      while why.None?
        invariant stopCh == old(stopCh) || fresh(stopCh)
        invariant Guarded(old(acts), acts)
        invariant Stands(why, script, limit, turn, due, out, log, last, base, ch)
        decreases why.None?, limit - turn
      {
        ghost var before := acts;
        out, why, turn, due, log, last := Advance(out, turn, limit, script, ch, due, base, log);
        GuardedOn(old(acts), before, acts);
      }
      exit := why.value;
    }
  }

  // ----- The round

  /** Rejected calls point at earlier calls that are kept. */
  ghost predicate Kept(n: nat, rejected: map<nat, nat>, order: seq<nat>) {
    Ascending(order, rejected) && forall j | j in rejected :: rejected[j] < j < n && rejected[j] !in rejected
  }

  /** Once the rejected slots are filled in, every slot answers its own call. */
  lemma FinalSlots(calls: seq<ToolCall>, rejected: map<nat, nat>, was: seq<Message>, rs: seq<Message>)
    requires Slots(calls, was) && PointAtWinners(calls, rejected, rs)
    requires forall i: nat | i < |calls| && i !in rejected :: rs[i] == was[i] && was[i] != Zero
    ensures Slots(calls, rs) && Zero !in rs
    ensures forall i | 0 <= i < |rs| :: rs[i].role.Tool? && rs[i].toolId == calls[i].id
  {
    forall i: nat | i < |calls|
      ensures rs[i].role.Tool? && rs[i].toolId == calls[i].id
    {
      if i in rejected {
        assert rs[i] == Rejection(calls, rejected, rs, i);
      }
    }
  }

  lemma ClosedAtOnce(round: Outcome, calls: seq<ToolCall>)
    requires round.sent == CancelTail(calls, round.rs, 0)
    ensures round.ClosedAfterSome(calls)
  {
    assert round.rs[..0] + round.sent == round.sent;
  }

  lemma EarlyCloseFits(round: Outcome, calls: seq<ToolCall>, handoff: Option<Message>)
    requires round == Outcome(map[], [], [], CancelTail(calls, [], 0))
    ensures round.Fits(calls, handoff) && round.Tail() == round.sent
  {
    ClosedAtOnce(round, calls);
  }

  lemma AnsweredGrows(rs: seq<Message>, i: nat)
    requires i < |rs|
    ensures AnsweredIds(rs[..i + 1]) == AnsweredIds(rs[..i]) + if IsReply(rs[i]) then {rs[i].toolId} else {}
  {
    assert forall k | 0 <= k < i :: rs[..i][k] == rs[..i + 1][k];
    assert rs[..i + 1][i] == rs[i];
  }
}

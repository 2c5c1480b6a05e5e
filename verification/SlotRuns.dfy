/**
  Slots that are left over (internal/agent/agent.go, internal/agent/subagent.go): runs
  of the slot protocol that lose one, what a lost slot costs under a limit, and when an
  agent can still get a slot after its last deferred release.
*/
module SlotRuns {
  import opened Wrappers
  import L = LimiterProtocol
  import opened SlotProtocol

  // ----- Runs of one agent under a limit of two

  /** A dispatch of agent 1 is admitted and stores its slot. */
  lemma Started(s: Slots, es: seq<Event>, c: Token) returns (more: seq<Event>)
    requires Run(s, es) && var t := Final(s, es);
             L.HasRoom(t.lim) && c !in t.lim.calls && c !in t.lim.cancelled && 1 !in t.slot && t.flight == map[]
    ensures Run(s, more)
    ensures NeverTooEarly(s, more) <==> NeverTooEarly(s, es) && 1 !in Final(s, es).pending
    ensures var (t, u) := (Final(s, es), Final(s, more));
            && u.slot == t.slot[1 := c] && u.flight == map[] && u.taken == t.taken && u.lost == t.lost && u.pending == t.pending
            && u.nested == Known(t.nested, 1)
            && u.lim == t.lim.(holders := t.lim.holders + 1, calls := t.lim.calls[c := L.Holding])
  {
    OneMore(s, es, Dispatch(1, c));
    var entering := es + [Dispatch(1, c)];
    OneMore(s, entering, Attempt(c));
    var admitted := entering + [Attempt(c)];
    OneMore(s, admitted, Store(c));
    more := admitted + [Store(c)];
    assert map[c := Acquire(1, false)] - {c} == map[];
  }

  /** Agent 1 is dispatched and gives its slot back for a nested call. */
  lemma WaitingForAChild() returns (es: seq<Event>)
    ensures Run(Fresh, es) && NeverTooEarly(Fresh, es)
    ensures var t := Final(Fresh, es);
            && t.nested == map[1 := 1] && t.slot == map[] && t.pending == {1} && t.flight == map[] && t.taken == {} && t.lost == {}
            && t.lim == L.Limiter(2, 0, 0, Some(1), map[0 := L.Released], {})
  {
    OneMore(Fresh, [], Resize(2));
    es := Started(Fresh, [] + [Resize(2)], 0);
    OneMore(Fresh, es, Pause(1));
    es := es + [Pause(1)];
    OneMore(Fresh, es, Return(0));
    es := es + [Return(0)];
  }

  /** The agent takes its slot back: the acquire has succeeded and is not stored. */
  lemma TakingItBack(s: Slots, es: seq<Event>, c: Token) returns (more: seq<Event>)
    requires Run(s, es) && var t := Final(s, es);
             L.HasRoom(t.lim) && c !in t.lim.calls && c !in t.lim.cancelled && Reacquires(t, 1) && c !in t.flight
    ensures Run(s, more) && (NeverTooEarly(s, more) <==> NeverTooEarly(s, es))
    ensures var (t, u) := (Final(s, es), Final(s, more));
            && u.slot == t.slot && u.taken == t.taken && u.lost == t.lost && u.flight == t.flight[c := Acquire(1, true)]
            && u.pending == t.pending - {1} && u.nested == t.nested[1 := 0]
            && u.lim == t.lim.(holders := t.lim.holders + 1, calls := t.lim.calls[c := L.Holding])
  {
    OneMore(s, es, Resume(1, c));
    var mid := es + [Resume(1, c)];
    OneMore(s, mid, Attempt(c));
    more := mid + [Attempt(c)];
  }

  /** The agent finishes with the nested call still out and is resumed. */
  lemma ResumedWhileWaiting() returns (es: seq<Event>)
    ensures Run(Fresh, es) && !NeverTooEarly(Fresh, es)
    ensures var t := Final(Fresh, es);
            && t.nested == map[1 := 1] && t.slot == map[1 := 1] && t.pending == {1} && t.flight == map[] && t.taken == {} && t.lost == {}
            && t.lim == L.Limiter(2, 1, 0, Some(1), map[0 := L.Released, 1 := L.Holding], {})
  {
    es := WaitingForAChild();
    OneMore(Fresh, es, Finish(1));
    es := Started(Fresh, es + [Finish(1)], 1);
  }

  /**
    The run in which a slot is lost. The agent finishes while a nested call is still
    out, is resumed, and stores the slot of its second dispatch; then the nested call
    ends and the slot taken back for it overwrites that one.
  */
  lemma EarlyResumeLosesASlot() returns (es: seq<Event>)
    ensures Run(Fresh, es) && !NeverTooEarly(Fresh, es)
    ensures var t := Final(Fresh, es);
            && t.slot == map[1 := 2] && t.lost == {1} && t.taken == {} && t.flight == map[] && t.pending == {}
            && t.nested == map[1 := 0] && t.lim.max == 2 && t.lim.holders == 2 && InPhase(t.lim.calls, 2, L.Holding)
  {
    es := ResumedWhileWaiting();
    es := TakingItBack(Fresh, es, 2);
    OneMore(Fresh, es, Store(2));
    es := es + [Store(2)];
    var t := Final(Fresh, es);
    assert t.slot == map[1 := 2] && t.flight == map[] && t.lost == {1};
  }

  /** Two dispatches later nobody holds a slot, and a limit of one is used up. */
  lemma StarvedPool() returns (es: seq<Event>)
    ensures Run(Fresh, es)
    ensures var t := Final(Fresh, es);
            && t.slot == map[] && t.taken == {} && t.flight == map[] && t.pending == {}
            && t.lost == {1} && t.lim.max == 1 && t.lim.holders == 1
  {
    es := EarlyResumeLosesASlot();
    OneMore(Fresh, es, Finish(1));
    es := es + [Finish(1)];
    OneMore(Fresh, es, Return(2));
    es := es + [Return(2)];
    OneMore(Fresh, es, Resize(1));
    es := es + [Resize(1)];
  }

  /** The forced release comes between the acquire and the store, and the slot is there afterwards. */
  lemma ForceCanMissASlot() returns (es: seq<Event>)
    ensures Run(Fresh, es) && |es| >= 2 && es[|es| - 2] == Force(1)
    ensures Final(Fresh, es).slot == map[1 := 1] && Final(Fresh, es).lim.holders == 1
  {
    es := WaitingForAChild();
    es := TakingItBack(Fresh, es, 1);
    OneMore(Fresh, es, Force(1));
    es := es + [Force(1)];
    OneMore(Fresh, es, Store(1));
    es := es + [Store(1)];
    assert Final(Fresh, es).slot == map[1 := 1];
  }

  /**
    A slot is left over without any early dispatch: the nested call outlives the
    dispatch, the slot it takes back is acquired before the deferred release finds
    nothing, and stored after it.
  */
  lemma StoredAfterFinish() returns (es: seq<Event>)
    ensures Run(Fresh, es) && NeverTooEarly(Fresh, es) && |es| >= 2 && es[|es| - 2] == Finish(1)
    ensures var t := Final(Fresh, es);
            && t.slot == map[1 := 1] && t.lim.holders == 1
            && t.nested == map[1 := 0] && t.pending == {} && t.flight == map[] && t.taken == {} && t.lost == {}
  {
    es := WaitingForAChild();
    es := TakingItBack(Fresh, es, 1);
    OneMore(Fresh, es, Finish(1));
    es := es + [Finish(1)];
    OneMore(Fresh, es, Store(1));
    es := es + [Store(1)];
    assert Final(Fresh, es).slot == map[1 := 1] && Final(Fresh, es).flight == map[];
  }

  // ----- What lost slots cost

  predicate Constant(es: seq<Event>) {
    forall i | 0 <= i < |es| :: !es[i].Resize?
  }

  lemma MaxIsKept(s: Slots, e: Event)
    requires Enabled(s, e) && !e.Resize?
    ensures Apply(s, e).lim.max == s.lim.max
  {
  }

  /** Nobody is admitted by a step when the lost slots use up the limit. */
  lemma StarvedStep(s: Slots, e: Event, c: Token)
    requires Inv(s) && Enabled(s, e) && !e.Resize? && 0 < s.lim.max <= |s.lost|
    ensures InPhase(Apply(s, e).lim.calls, c, L.Holding) ==> InPhase(s.lim.calls, c, L.Holding)
  {
    assert !L.HasRoom(s.lim);
  }

  /** Once as many slots are lost as the limit allows, no run without a limit change admits anybody. */
  lemma {:induction false} StarvedForever(s: Slots, es: seq<Event>, c: Token)
    requires Inv(s) && Run(s, es) && Constant(es) && 0 < s.lim.max <= |s.lost|
    ensures InPhase(Final(s, es).lim.calls, c, L.Holding) ==> InPhase(s.lim.calls, c, L.Holding)
    decreases |es|
  {
    if es != [] {
      var t := Apply(s, es[0]);
      StarvedStep(s, es[0], c);
      MaxIsKept(s, es[0]);
      StepKeepsInv(s, es[0]);
      SubsetCount(s.lost, t.lost);
      StarvedForever(t, es[1..], c);
    }
  }

  lemma StaysWithinLimit(s: Slots, e: Event)
    requires Inv(s) && Enabled(s, e) && !e.Resize? && L.WithinLimit(s.lim)
    ensures L.WithinLimit(Apply(s, e).lim)
  {
    match e
    case Stop(c) => L.LimitBrokenOnlyByShrinking(s.lim, L.Cancel(c));
    case Dispatch(_, c) => L.LimitBrokenOnlyByShrinking(s.lim, L.Enter(c));
    case Attempt(c) => L.LimitBrokenOnlyByShrinking(s.lim, L.Attempt(c));
    case Return(c) => L.LimitBrokenOnlyByShrinking(s.lim, L.Release(c));
    case Resume(a, c) =>
      if Reacquires(s, a) {
        L.LimitBrokenOnlyByShrinking(s.lim, L.Enter(c));
      }
    case _ =>
  }

  /** A slot is lost to one that is stored, so a step within the limit leaves one slot in use. */
  lemma LossLeavesOne(s: Slots, e: Event)
    requires Inv(s) && Enabled(s, e) && !e.Resize? && L.WithinLimit(s.lim) && |s.lost| < s.lim.max
    ensures |Apply(s, e).lost| < s.lim.max
  {
    var t := Apply(s, e);
    StepKeepsInv(s, e);
    StaysWithinLimit(s, e);
    MaxIsKept(s, e);
    LosesIffOverwrites(s, e);
    if t.lost != s.lost {
      assert s.flight[e.call].agent in t.slot;
    }
  }

  /** Under a constant limit early resumes can use up all slots but one, and never the last. */
  lemma {:induction false} ConstantLimitKeepsOne(s: Slots, es: seq<Event>)
    requires Inv(s) && Run(s, es) && Constant(es) && L.WithinLimit(s.lim) && |s.lost| < s.lim.max
    ensures |Final(s, es).lost| < s.lim.max
    decreases |es|
  {
    if es != [] {
      LossLeavesOne(s, es[0]);
      StepKeepsInv(s, es[0]);
      StaysWithinLimit(s, es[0]);
      MaxIsKept(s, es[0]);
      ConstantLimitKeepsOne(Apply(s, es[0]), es[1..]);
    }
  }

  // ----- After the last deferred release

  /** A pending reacquire belongs to a nested call that is still out. */
  ghost predicate PendingWaits(s: Slots) {
    forall a | a in s.pending :: Waits(s.nested, a) > 0
  }

  lemma StepKeepsPendingWaits(s: Slots, e: Event)
    requires PendingWaits(s) && Enabled(s, e)
    ensures PendingWaits(Apply(s, e))
  {
  }

  lemma {:induction false} RunKeepsPendingWaits(s: Slots, es: seq<Event>)
    requires PendingWaits(s) && Run(s, es)
    ensures PendingWaits(Final(s, es))
    decreases |es|
  {
    if es != [] {
      StepKeepsPendingWaits(s, es[0]);
      RunKeepsPendingWaits(Apply(s, es[0]), es[1..]);
    }
  }

  /** The acquire has succeeded, or may still: it was neither refused nor cancelled. */
  predicate Viable(lim: L.Limiter, c: Token) {
    c in lim.calls && (lim.calls[c].Holding? || (!lim.calls[c].Refused? && c !in lim.cancelled))
  }

  /** The agent may still get a slot without a new dispatch. */
  predicate MayStore(s: Slots, a: AgentId) {
    a in s.pending || exists c | c in s.flight :: s.flight[c].agent == a && Viable(s.lim, c)
  }

  /** Nobody dispatches the agent again and nobody releases for it. */
  predicate LeftAlone(es: seq<Event>, a: AgentId) {
    forall i | 0 <= i < |es| :: es[i] != Force(a) && es[i] != Finish(a) && (es[i].Dispatch? ==> es[i].agent != a)
  }

  lemma NothingComes(s: Slots, e: Event, a: AgentId)
    requires TokensOk(s) && Enabled(s, e) && (e.Dispatch? ==> e.agent != a)
    requires a !in s.slot && !MayStore(s, a)
    ensures a !in Apply(s, e).slot && !MayStore(Apply(s, e), a)
  {
    var t := Apply(s, e);
    forall c | c in t.flight && t.flight[c].agent == a
      ensures !Viable(t.lim, c)
    {
      assert c in s.flight && s.flight[c].agent == a;
      assert !Viable(s.lim, c);
    }
  }

  lemma {:induction false} NothingEverComes(s: Slots, es: seq<Event>, a: AgentId)
    requires Inv(s) && Run(s, es) && LeftAlone(es, a)
    requires a !in s.slot && !MayStore(s, a)
    ensures a !in Final(s, es).slot
    decreases |es|
  {
    if es != [] {
      NothingComes(s, es[0], a);
      StepKeepsInv(s, es[0]);
      NothingEverComes(Apply(s, es[0]), es[1..], a);
    }
  }

  lemma Prepend(s: Slots, e: Event, es: seq<Event>)
    requires Enabled(s, e) && Run(Apply(s, e), es)
    ensures Run(s, [e] + es) && Final(s, [e] + es) == Final(Apply(s, e), es)
  {
    assert ([e] + es)[0] == e && ([e] + es)[1..] == es;
  }

  /** A viable acquire is stored if the limit is lifted and its thread runs. */
  lemma ViableStores(s: Slots, a: AgentId, c: Token) returns (es: seq<Event>)
    requires Inv(s) && c in s.flight && s.flight[c].agent == a && Viable(s.lim, c)
    ensures Run(s, es) && LeftAlone(es, a) && a in Final(s, es).slot
  {
    es := [];
    if !s.lim.calls[c].Holding? {
      OneMore(s, es, Resize(0));
      es := es + [Resize(0)];
      OneMore(s, es, Attempt(c));
      es := es + [Attempt(c)];
    }
    OneMore(s, es, Store(c));
    es := es + [Store(c)];
  }

  /** A pending reacquire is made once the nested calls have returned. */
  lemma {:induction false} PendingStores(s: Slots, a: AgentId) returns (es: seq<Event>)
    requires Inv(s) && PendingWaits(s) && a in s.pending
    ensures Run(s, es) && LeftAlone(es, a) && a in Final(s, es).slot
    decreases Waits(s.nested, a)
  {
    var c := Unused(s.lim.calls.Keys + s.lim.cancelled);
    var t := Apply(s, Resume(a, c));
    StepKeepsInv(s, Resume(a, c));
    StepKeepsPendingWaits(s, Resume(a, c));
    if Reacquires(s, a) {
      es := ViableStores(t, a, c);
    } else {
      es := PendingStores(t, a);
    }
    Prepend(s, Resume(a, c), es);
    es := [Resume(a, c)] + es;
  }

  lemma MayStoreStores(s: Slots, a: AgentId) returns (es: seq<Event>)
    requires Inv(s) && PendingWaits(s) && MayStore(s, a)
    ensures Run(s, es) && LeftAlone(es, a) && a in Final(s, es).slot
  {
    if a in s.pending {
      es := PendingStores(s, a);
    } else {
      var c :| c in s.flight && s.flight[c].agent == a && Viable(s.lim, c);
      es := ViableStores(s, a, c);
    }
  }

  /** Left alone, the agent never holds a slot again. */
  ghost predicate NeverAgain(s: Slots, a: AgentId) {
    forall es | Run(s, es) && LeftAlone(es, a) :: a !in Final(s, es).slot
  }

  /**
    After any run that ends with the deferred release of an agent's dispatch: no
    continuation in which it is neither dispatched nor released for gives it a slot, if
    and only if at that release no reacquire is pending and no acquire in flight for it
    can still succeed.
  */
  lemma NoSlotAfterFinishIff(past: seq<Event>, a: AgentId)
    requires Run(Fresh, past + [Finish(a)])
    ensures NeverAgain(Final(Fresh, past + [Finish(a)]), a) <==> !MayStore(Final(Fresh, past + [Finish(a)]), a)
  {
    var s := Final(Fresh, past + [Finish(a)]);
    FreshInv();
    RunKeepsInv(Fresh, past + [Finish(a)]);
    RunKeepsPendingWaits(Fresh, past + [Finish(a)]);
    LastIsFinish(Fresh, past, a);
    if MayStore(s, a) {
      var es := MayStoreStores(s, a);
    } else {
      forall es | Run(s, es) && LeftAlone(es, a)
        ensures a !in Final(s, es).slot
      {
        NothingEverComes(s, es, a);
      }
    }
  }

  lemma {:induction false} LastIsFinish(s: Slots, past: seq<Event>, a: AgentId)
    requires Run(s, past + [Finish(a)])
    ensures a !in Final(s, past + [Finish(a)]).slot
    decreases |past|
  {
    var es := past + [Finish(a)];
    if past == [] {
      assert es[0] == Finish(a) && es[1..] == [];
      assert Final(s, es) == Final(Apply(s, Finish(a)), []);
    } else {
      assert es[0] == past[0] && es[1..] == past[1..] + [Finish(a)];
      LastIsFinish(Apply(s, past[0]), past[1..], a);
    }
  }

  // ----- Dispatches that are cancelled while queued

  /** A dispatch or reacquire that is stopped before it is admitted ends at once, without a slot. */
  lemma StoppedAcquireEnds(s: Slots, c: Token)
    requires Inv(s) && c in s.flight && (s.lim.calls[c].Entered? || s.lim.calls[c].Parked?)
    ensures Run(s, [] + [Stop(c)] + [Attempt(c)] + [GiveUp(c)])
    ensures var t := Final(s, [] + [Stop(c)] + [Attempt(c)] + [GiveUp(c)]);
            && c !in t.flight && InPhase(t.lim.calls, c, L.Refused) && t.lim.holders == s.lim.holders
            && t.slot == s.slot && t.taken == s.taken && t.lost == s.lost
  {
    OneMore(s, [], Stop(c));
    OneMore(s, [] + [Stop(c)], Attempt(c));
    OneMore(s, [] + [Stop(c)] + [Attempt(c)], GiveUp(c));
  }
}

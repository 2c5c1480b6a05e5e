/**
  How an agent owns its concurrency slot (internal/agent/agent.go and the
  dispatch paths of internal/agent/subagent.go). A dispatcher acquires a slot for
  its child and stores it on the child; an agent about to wait for its own nested
  dispatch gives the slot back and reacquires it when the last one returns.

  The steps are split at every lock boundary: slotMu sections, limiter sections
  and the code between them interleave freely. A token is the limiter call that
  acquired it.

  A run may be resumed: the same agent is dispatched again with the fields it has.
  A nested call may go on after the tool call that started it has returned, so an
  agent can finish, and be dispatched again, while its nested calls are still out.
*/
module SlotProtocol {
  import opened Wrappers
  import L = LimiterProtocol

  type AgentId = nat
  type Token = L.CallId
  type Phases = map<Token, L.Phase>

  /** An acquire under way: by the dispatch of an agent, or by the agent taking its slot back. */
  datatype Acquire = Acquire(agent: AgentId, redo: bool)

  type Flights = map<Token, Acquire>

  datatype Slots = Slots(
    lim: L.Limiter,
    nested: map<AgentId, nat>,      // nestedTaskCalls of every agent
    slot: map<AgentId, Token>,      // slotRelease, where it is not nil
    pending: set<AgentId>,          // slotPendingReacq
    flight: Flights,                // acquires not stored yet
    taken: set<Token>,              // a release that is about to run
    lost: set<Token>)               // a release that was overwritten: nobody can run it

  const Fresh := Slots(L.Fresh, map[], map[], {}, map[], {}, {})

  datatype Event =
    | Resize(n: int)                      // setMax
    | Stop(call: Token)                   // a stop or cancel channel closes
    | StartRoot(agent: AgentId)           // the main agent: never holds a slot
    | Dispatch(agent: AgentId, call: Token) // a fresh dispatch, or a resume of the same agent
    | Attempt(call: Token)                // a limiter pass of an acquire
    | Store(call: Token)                  // setOwnSlot, or the store after a reacquire
    | Abandon(call: Token)                // a dispatch cancelled after its acquire releases at once
    | GiveUp(call: Token)                 // the acquire returned the cancellation error
    | Pause(agent: AgentId)               // slotMu section of pauseOwnSlotForNestedCall
    | Return(call: Token)                 // a release taken out under slotMu runs
    | Resume(agent: AgentId, call: Token) // slotMu section of the returned func
    | Force(agent: AgentId)               // releaseOwnSlot from another goroutine
    | Finish(agent: AgentId)              // the dispatch's deferred releaseOwnSlot

  predicate InPhase(calls: Phases, c: Token, p: L.Phase) {
    c in calls && calls[c] == p
  }

  /** The nested calls an agent is waiting for. */
  function Waits(nested: map<AgentId, nat>, a: AgentId): nat {
    if a in nested then nested[a] else 0
  }

  predicate Reacquires(s: Slots, a: AgentId) {
    Waits(s.nested, a) == 1 && a in s.pending
  }

  predicate Enabled(s: Slots, e: Event) {
    match e
    case Resize(_) => true
    case Stop(_) => true
    case StartRoot(a) => a !in s.nested
    case Dispatch(_, c) => c !in s.lim.calls
    case Attempt(c) => c in s.flight && L.Enabled(s.lim, L.Attempt(c))
    case Store(c) => c in s.flight && InPhase(s.lim.calls, c, L.Holding)
    case Abandon(c) => c in s.flight && !s.flight[c].redo && InPhase(s.lim.calls, c, L.Holding)
    case GiveUp(c) => c in s.flight && InPhase(s.lim.calls, c, L.Refused)
    case Pause(a) => a in s.nested
    case Return(c) => c in s.taken && L.Enabled(s.lim, L.Release(c))
    case Resume(a, c) => Waits(s.nested, a) > 0 && (Reacquires(s, a) ==> c !in s.lim.calls)
    case Force(_) => true
    case Finish(a) => a in s.nested
  }

  /** releaseOwnSlot up to the unlock: the token leaves the agent. */
  function TakeSlot(s: Slots, a: AgentId): Slots {
    if a in s.slot then
      s.(slot := s.slot - {a}, taken := s.taken + {s.slot[a]})
    else s
  }

  function BeginAcquire(s: Slots, c: Token, acquire: Acquire): Slots {
    s.(lim := L.DoEnter(s.lim, c), flight := s.flight[c := acquire])
  }

  /** The assignment to slotRelease; what it held is gone. */
  function StoreSlot(s: Slots, a: AgentId, c: Token): Slots {
    s.(slot := s.slot[a := c], flight := s.flight - {c},
       lost := if a in s.slot then s.lost + {s.slot[a]} else s.lost)
  }

  /** An agent's fields survive its dispatches; a new agent has waited for nothing. */
  function Known(nested: map<AgentId, nat>, a: AgentId): map<AgentId, nat> {
    nested[a := Waits(nested, a)]
  }

  function Apply(s: Slots, e: Event): Slots
    requires Enabled(s, e)
  {
    match e
    case Resize(n) => s.(lim := L.DoSetMax(s.lim, n))
    case Stop(c) => s.(lim := s.lim.(cancelled := s.lim.cancelled + {c}))
    case StartRoot(a) => s.(nested := s.nested[a := 0])
    case Dispatch(a, c) => BeginAcquire(s.(nested := Known(s.nested, a)), c, Acquire(a, false))
    case Attempt(c) => s.(lim := L.DoAttempt(s.lim, c))
    case Store(c) => StoreSlot(s, s.flight[c].agent, c)
    case Abandon(c) => s.(flight := s.flight - {c}, taken := s.taken + {c})
    case GiveUp(c) => s.(flight := s.flight - {c})
    case Pause(a) =>
      var t := s.(nested := s.nested[a := s.nested[a] + 1]);
      if s.nested[a] == 0 && a in s.slot then
        TakeSlot(t, a).(pending := s.pending + {a})
      else t
    case Return(c) => s.(lim := L.DoRelease(s.lim, c), taken := s.taken - {c})
    case Resume(a, c) =>
      var t := s.(nested := s.nested[a := s.nested[a] - 1]);
      if Reacquires(s, a) then
        BeginAcquire(t.(pending := s.pending - {a}), c, Acquire(a, true))
      else t
    case Force(a) => TakeSlot(s, a)
    case Finish(a) => TakeSlot(s, a)
  }

  // ----- What always holds: every held slot is in one place

  /** The acquires that have succeeded and are not stored yet. */
  function Unstored(calls: Phases, flight: Flights): set<Token> {
    set c | c in flight && InPhase(calls, c, L.Holding)
  }

  /** Every token has one place, and its limiter call is in the phase that place implies. */
  ghost predicate TokensApart(calls: Phases, slot: map<AgentId, Token>, flight: Flights, taken: set<Token>, lost: set<Token>) {
    && (forall a | a in slot :: InPhase(calls, slot[a], L.Holding) && slot[a] !in taken && slot[a] !in lost && slot[a] !in flight)
    && (forall a, b | a in slot && b in slot && a != b :: slot[a] != slot[b])
    && (forall c | c in taken :: InPhase(calls, c, L.Holding) && c !in lost && c !in flight)
    && (forall c | c in lost :: InPhase(calls, c, L.Holding) && c !in flight)
    && (forall c | c in flight :: c in calls && !calls[c].Released?)
  }

  /** The limiter's count: stored, acquired and not stored, about to be released, and lost slots. */
  ghost predicate Counted(s: Slots) {
    s.lim.holders == |s.slot| + |Unstored(s.lim.calls, s.flight)| + |s.taken| + |s.lost|
  }

  ghost predicate Inv(s: Slots) {
    L.Inv(s.lim) && TokensApart(s.lim.calls, s.slot, s.flight, s.taken, s.lost) && Counted(s)
  }

  lemma FreshInv()
    ensures Inv(Fresh)
  {
    L.FreshInv();
    assert Unstored(map[], map[]) == {};
  }

  // Each step, one conjunct at a time.

  lemma StepKeepsLimiter(s: Slots, e: Event)
    requires L.Inv(s.lim) && Enabled(s, e)
    ensures L.Inv(Apply(s, e).lim)
  {
    match e
    case Resize(n) => L.StepKeepsInv(s.lim, L.SetMax(n));
    case Stop(c) => L.StepKeepsInv(s.lim, L.Cancel(c));
    case Dispatch(_, c) => L.StepKeepsInv(s.lim, L.Enter(c));
    case Attempt(c) => L.StepKeepsInv(s.lim, L.Attempt(c));
    case Return(c) => L.StepKeepsInv(s.lim, L.Release(c));
    case Resume(a, c) =>
      if Reacquires(s, a) {
        L.StepKeepsInv(s.lim, L.Enter(c));
      }
    case _ =>
  }

  ghost predicate TokensOk(s: Slots) {
    TokensApart(s.lim.calls, s.slot, s.flight, s.taken, s.lost)
  }

  lemma TakeSlotKeepsTokens(s: Slots, a: AgentId)
    requires TokensOk(s)
    ensures TokensOk(TakeSlot(s, a))
  {
  }

  lemma BeginAcquireKeepsTokens(s: Slots, c: Token, acquire: Acquire)
    requires TokensOk(s) && c !in s.lim.calls
    ensures TokensOk(BeginAcquire(s, c, acquire))
  {
  }

  lemma AttemptKeepsTokens(s: Slots, c: Token)
    requires TokensOk(s) && Enabled(s, Attempt(c))
    ensures TokensOk(Apply(s, Attempt(c)))
  {
  }

  lemma StoreKeepsTokens(s: Slots, c: Token)
    requires TokensOk(s) && Enabled(s, Store(c))
    ensures TokensOk(Apply(s, Store(c)))
  {
  }

  lemma LeaveFlightKeepsTokens(s: Slots, e: Event)
    requires TokensOk(s) && Enabled(s, e) && (e.Abandon? || e.GiveUp?)
    ensures TokensOk(Apply(s, e))
  {
  }

  lemma ReturnKeepsTokens(s: Slots, c: Token)
    requires TokensOk(s) && Enabled(s, Return(c))
    ensures TokensOk(Apply(s, Return(c)))
  {
  }

  lemma StepKeepsTokens(s: Slots, e: Event)
    requires TokensOk(s) && Enabled(s, e)
    ensures TokensOk(Apply(s, e))
  {
    match e
    case Dispatch(a, c) => BeginAcquireKeepsTokens(s.(nested := Known(s.nested, a)), c, Acquire(a, false));
    case Attempt(c) => AttemptKeepsTokens(s, c);
    case Store(c) => StoreKeepsTokens(s, c);
    case Abandon(c) => LeaveFlightKeepsTokens(s, e);
    case GiveUp(c) => LeaveFlightKeepsTokens(s, e);
    case Pause(a) => TakeSlotKeepsTokens(s.(nested := s.nested[a := s.nested[a] + 1]), a);
    case Return(c) => ReturnKeepsTokens(s, c);
    case Resume(a, c) =>
      if Reacquires(s, a) {
        BeginAcquireKeepsTokens(s.(nested := s.nested[a := s.nested[a] - 1], pending := s.pending - {a}), c, Acquire(a, true));
      }
    case Force(a) => TakeSlotKeepsTokens(s, a);
    case Finish(a) => TakeSlotKeepsTokens(s, a);
    case _ =>
  }

  lemma CountOneMore(less: map<AgentId, Token>, more: map<AgentId, Token>, a: AgentId)
    requires a in more && less == more - {a}
    ensures |more| == |less| + 1
  {
    assert more.Keys == less.Keys + {a};
    assert |more| == |more.Keys| && |less| == |less.Keys|;
  }

  lemma CountReplaced(slot: map<AgentId, Token>, a: AgentId, c: Token)
    ensures |slot[a := c]| == if a in slot then |slot| else |slot| + 1
  {
    assert slot[a := c].Keys == slot.Keys + {a};
    assert |slot[a := c]| == |slot[a := c].Keys| && |slot| == |slot.Keys|;
  }

  lemma TakeSlotCounts(s: Slots, a: AgentId)
    requires TokensOk(s) && Counted(s)
    ensures Counted(TakeSlot(s, a))
  {
    if a in s.slot {
      CountOneMore(TakeSlot(s, a).slot, s.slot, a);
    }
  }

  lemma BeginAcquireCounts(s: Slots, c: Token, acquire: Acquire)
    requires TokensOk(s) && Counted(s) && c !in s.lim.calls
    ensures Counted(BeginAcquire(s, c, acquire))
  {
    var t := BeginAcquire(s, c, acquire);
    assert Unstored(t.lim.calls, t.flight) == Unstored(s.lim.calls, s.flight);
  }

  lemma UnstoredAfterPass(calls: Phases, flight: Flights, c: Token, p: L.Phase)
    requires c in flight && !InPhase(calls, c, L.Holding)
    ensures c !in Unstored(calls, flight)
    ensures Unstored(calls[c := p], flight)
         == if p.Holding? then Unstored(calls, flight) + {c} else Unstored(calls, flight)
  {
  }

  lemma UnstoredAfterStore(calls: Phases, flight: Flights, c: Token)
    requires c in flight && InPhase(calls, c, L.Holding)
    ensures c in Unstored(calls, flight)
    ensures Unstored(calls, flight - {c}) == Unstored(calls, flight) - {c}
  {
  }

  lemma AttemptCounts(s: Slots, c: Token)
    requires TokensOk(s) && Counted(s) && Enabled(s, Attempt(c))
    ensures Counted(Apply(s, Attempt(c)))
  {
    UnstoredAfterPass(s.lim.calls, s.flight, c, Apply(s, Attempt(c)).lim.calls[c]);
  }

  lemma StoreCounts(s: Slots, c: Token)
    requires TokensOk(s) && Counted(s) && Enabled(s, Store(c))
    ensures Counted(Apply(s, Store(c)))
  {
    UnstoredAfterStore(s.lim.calls, s.flight, c);
    CountReplaced(s.slot, s.flight[c].agent, c);
  }

  lemma LeaveFlightCounts(s: Slots, e: Event)
    requires TokensOk(s) && Counted(s) && Enabled(s, e) && (e.Abandon? || e.GiveUp?)
    ensures Counted(Apply(s, e))
  {
    if e.Abandon? {
      UnstoredAfterStore(s.lim.calls, s.flight, e.call);
    } else {
      assert Unstored(s.lim.calls, s.flight - {e.call}) == Unstored(s.lim.calls, s.flight);
    }
  }

  lemma ReturnCounts(s: Slots, c: Token)
    requires L.Inv(s.lim) && TokensOk(s) && Counted(s) && Enabled(s, Return(c))
    ensures Counted(Apply(s, Return(c)))
  {
    L.ReleaseNeverClamps(s.lim, c);
    assert Unstored(s.lim.calls[c := L.Released], s.flight) == Unstored(s.lim.calls, s.flight);
  }

  lemma StepCounts(s: Slots, e: Event)
    requires TokensOk(s) && Counted(s) && Enabled(s, e) && !e.Return?
    ensures Counted(Apply(s, e))
  {
    match e
    case Dispatch(a, c) => BeginAcquireCounts(s.(nested := Known(s.nested, a)), c, Acquire(a, false));
    case Attempt(c) => AttemptCounts(s, c);
    case Store(c) => StoreCounts(s, c);
    case Abandon(c) => LeaveFlightCounts(s, e);
    case GiveUp(c) => LeaveFlightCounts(s, e);
    case Pause(a) => TakeSlotCounts(s, a);
    case Resume(a, c) =>
      if Reacquires(s, a) {
        BeginAcquireCounts(s, c, Acquire(a, true));
      }
    case Force(a) => TakeSlotCounts(s, a);
    case Finish(a) => TakeSlotCounts(s, a);
    case _ =>
  }

  lemma StepKeepsInv(s: Slots, e: Event)
    requires Inv(s) && Enabled(s, e)
    ensures Inv(Apply(s, e)) && s.lost <= Apply(s, e).lost
  {
    LosesIffOverwrites(s, e);
    StepKeepsLimiter(s, e);
    StepKeepsTokens(s, e);
    if e.Return? {
      ReturnCounts(s, e.call);
    } else {
      StepCounts(s, e);
    }
  }

  // ----- What holds as long as no agent is dispatched too early

  predicate NoFlight(flight: Flights, a: AgentId) {
    forall c | c in flight :: flight[c].agent != a
  }

  /** The agent has a slot, wants one back, or one is being acquired for it. */
  predicate Busy(s: Slots, a: AgentId) {
    a in s.slot || a in s.pending || !NoFlight(s.flight, a)
  }

  /** At most one of: slot held, reacquire pending, one acquire in flight. */
  ghost predicate AtMostOne(slot: map<AgentId, Token>, pending: set<AgentId>, flight: Flights, a: AgentId) {
    && (a in slot ==> a !in pending && NoFlight(flight, a))
    && (a in pending ==> NoFlight(flight, a))
    && (forall c, d | c in flight && d in flight && flight[c].agent == a && flight[d].agent == a :: c == d)
  }

  ghost predicate Apart(s: Slots) {
    forall a :: AtMostOne(s.slot, s.pending, s.flight, a)
  }

  /** A dispatch of an agent that still has something of an earlier dispatch. */
  predicate TooEarly(s: Slots, e: Event) {
    e.Dispatch? && Busy(s, e.agent)
  }

  lemma DispatchIsApartIffIdle(s: Slots, a: AgentId, c: Token)
    requires TokensOk(s) && Apart(s) && Enabled(s, Dispatch(a, c))
    ensures Apart(Apply(s, Dispatch(a, c))) <==> !Busy(s, a)
  {
    var t := Apply(s, Dispatch(a, c));
    assert t.flight == s.flight[c := Acquire(a, false)] && c !in s.flight;
    assert t.flight[c].agent == a;
    if Busy(s, a) {
      assert !NoFlight(t.flight, a);
      if !NoFlight(s.flight, a) {
        var d :| d in s.flight && s.flight[d].agent == a;
        assert d in t.flight && t.flight[d].agent == a && d != c;
      }
      assert !AtMostOne(t.slot, t.pending, t.flight, a);
    } else {
      forall b
        ensures AtMostOne(t.slot, t.pending, t.flight, b)
      {
        assert AtMostOne(s.slot, s.pending, s.flight, b);
      }
    }
  }

  lemma OtherStepsKeepOne(s: Slots, e: Event, b: AgentId)
    requires TokensOk(s) && Enabled(s, e) && !e.Dispatch?
    requires forall a :: AtMostOne(s.slot, s.pending, s.flight, a)
    ensures AtMostOne(Apply(s, e).slot, Apply(s, e).pending, Apply(s, e).flight, b)
  {
    assert AtMostOne(s.slot, s.pending, s.flight, b);
    match e
    case Store(c) => assert AtMostOne(s.slot, s.pending, s.flight, s.flight[c].agent);
    case Resume(a, c) => assert AtMostOne(s.slot, s.pending, s.flight, a);
    case Pause(a) => assert AtMostOne(s.slot, s.pending, s.flight, a);
    case _ =>
  }

  /** Exactly the dispatches of a busy agent bring two of its claims together. */
  lemma StepKeepsApartIff(s: Slots, e: Event)
    requires TokensOk(s) && Apart(s) && Enabled(s, e)
    ensures Apart(Apply(s, e)) <==> !TooEarly(s, e)
  {
    if e.Dispatch? {
      DispatchIsApartIffIdle(s, e.agent, e.call);
    } else {
      forall b
        ensures AtMostOne(Apply(s, e).slot, Apply(s, e).pending, Apply(s, e).flight, b)
      {
        OtherStepsKeepOne(s, e, b);
      }
    }
  }

  /** A step loses a slot exactly when it stores over one. */
  lemma LosesIffOverwrites(s: Slots, e: Event)
    requires TokensOk(s) && Enabled(s, e)
    ensures Apply(s, e).lost == s.lost <==> !(e.Store? && s.flight[e.call].agent in s.slot)
    ensures s.lost <= Apply(s, e).lost
  {
  }

  // ----- Runs

  ghost predicate Run(s: Slots, es: seq<Event>)
    decreases |es|
  {
    es == [] || (Enabled(s, es[0]) && Run(Apply(s, es[0]), es[1..]))
  }

  ghost function Final(s: Slots, es: seq<Event>): Slots
    requires Run(s, es)
    decreases |es|
  {
    if es == [] then s else Final(Apply(s, es[0]), es[1..])
  }

  lemma {:induction false} RunKeepsInv(s: Slots, es: seq<Event>)
    requires Inv(s) && Run(s, es)
    ensures Inv(Final(s, es)) && s.lost <= Final(s, es).lost
    decreases |es|
  {
    if es != [] {
      StepKeepsInv(s, es[0]);
      RunKeepsInv(Apply(s, es[0]), es[1..]);
    }
  }

  /** Over every interleaving, early dispatches included, the limiter counts exactly the slots that have a place. */
  lemma EveryRunCountsSlots(es: seq<Event>)
    requires Run(Fresh, es)
    ensures var t := Final(Fresh, es);
            t.lim.holders == |t.slot| + |Unstored(t.lim.calls, t.flight)| + |t.taken| + |t.lost|
  {
    FreshInv();
    RunKeepsInv(Fresh, es);
  }

  /** Nothing is lost and no agent has two claims, in every state of the run. */
  ghost predicate AlwaysApart(s: Slots, es: seq<Event>)
    requires Run(s, es)
    decreases |es|
  {
    Apart(s) && s.lost == {} && (es == [] || AlwaysApart(Apply(s, es[0]), es[1..]))
  }

  /** No agent is dispatched while it has a slot, a pending reacquire or an acquire in flight. */
  ghost predicate NeverTooEarly(s: Slots, es: seq<Event>)
    requires Run(s, es)
    decreases |es|
  {
    es == [] || (!TooEarly(s, es[0]) && NeverTooEarly(Apply(s, es[0]), es[1..]))
  }

  lemma {:induction false} ApartIffNeverTooEarly(s: Slots, es: seq<Event>)
    requires Inv(s) && Apart(s) && s.lost == {} && Run(s, es)
    ensures AlwaysApart(s, es) <==> NeverTooEarly(s, es)
    decreases |es|
  {
    if es != [] {
      StepKeepsInv(s, es[0]);
      StepKeepsApartIff(s, es[0]);
      if !TooEarly(s, es[0]) {
        LosesIffOverwrites(s, es[0]);
        if es[0].Store? {
          assert AtMostOne(s.slot, s.pending, s.flight, s.flight[es[0].call].agent);
        }
        ApartIffNeverTooEarly(Apply(s, es[0]), es[1..]);
      }
    }
  }

  /**
    Slots stay apart and none is ever lost over a run if and only if no agent is
    dispatched while it still has a slot, a pending reacquire or an acquire in flight.
  */
  lemma SlotsApartIffNoEarlyDispatch(es: seq<Event>)
    requires Run(Fresh, es)
    ensures AlwaysApart(Fresh, es) <==> NeverTooEarly(Fresh, es)
  {
    FreshInv();
    ApartIffNeverTooEarly(Fresh, es);
  }

  lemma {:induction false} ApartAtTheEnd(s: Slots, es: seq<Event>)
    requires Run(s, es) && AlwaysApart(s, es)
    ensures Apart(Final(s, es)) && Final(s, es).lost == {}
    decreases |es|
  {
    if es != [] {
      ApartAtTheEnd(Apply(s, es[0]), es[1..]);
    }
  }

  /** Token conservation without early dispatches: the claims are apart and no slot is lost. */
  lemma TimelyRunsConserveSlots(es: seq<Event>)
    requires Run(Fresh, es) && NeverTooEarly(Fresh, es)
    ensures var t := Final(Fresh, es);
            Apart(t) && t.lim.holders == |t.slot| + |Unstored(t.lim.calls, t.flight)| + |t.taken|
  {
    SlotsApartIffNoEarlyDispatch(es);
    ApartAtTheEnd(Fresh, es);
    EveryRunCountsSlots(es);
  }

  /** Without early dispatches slotRelease is never overwritten while it is set. */
  lemma StoreNeverOverwrites(es: seq<Event>, c: Token)
    requires Run(Fresh, es) && NeverTooEarly(Fresh, es) && Enabled(Final(Fresh, es), Store(c))
    ensures Final(Fresh, es).flight[c].agent !in Final(Fresh, es).slot
  {
    TimelyRunsConserveSlots(es);
    var t := Final(Fresh, es);
    assert AtMostOne(t.slot, t.pending, t.flight, t.flight[c].agent);
  }

  /** An overwritten slot is never returned: the limiter counts it for good. */
  lemma LostForever(s: Slots, es: seq<Event>, c: Token)
    requires Inv(s) && Run(s, es) && c in s.lost
    ensures c in Final(s, es).lost && InPhase(Final(s, es).lim.calls, c, L.Holding) && Final(s, es).lim.holders > 0
  {
    RunKeepsInv(s, es);
  }

  /**
    A finished dispatch leaves its agent without a slot, and with nothing at all
    exactly when no nested call is still to give a slot back to it and no acquire
    is in flight for it.
  */
  lemma FinishLeavesNothingIff(s: Slots, a: AgentId)
    requires Inv(s) && Enabled(s, Finish(a))
    ensures var t := Apply(s, Finish(a));
            && a !in t.slot && (a in s.slot ==> s.slot[a] in t.taken)
            && (!Busy(t, a) <==> a !in s.pending && NoFlight(s.flight, a))
  {
  }

  // ----- Longer runs

  lemma {:induction false} RunAppend(s: Slots, es: seq<Event>, more: seq<Event>)
    requires Run(s, es) && Run(Final(s, es), more)
    ensures Run(s, es + more) && Final(s, es + more) == Final(Final(s, es), more)
    decreases |es|
  {
    if es == [] {
      assert es + more == more;
    } else {
      RunAppend(Apply(s, es[0]), es[1..], more);
      assert (es + more)[0] == es[0] && (es + more)[1..] == es[1..] + more;
    }
  }

  lemma OneStepRun(s: Slots, e: Event)
    requires Enabled(s, e)
    ensures Run(s, [e]) && Final(s, [e]) == Apply(s, e)
  {
    assert [e][0] == e && [e][1..] == [];
    assert Run(Apply(s, e), []) && Final(Apply(s, e), []) == Apply(s, e);
  }

  lemma {:induction false} TimelyAppend(s: Slots, es: seq<Event>, e: Event)
    requires Run(s, es) && Run(s, es + [e]) && Enabled(Final(s, es), e)
    ensures NeverTooEarly(s, es + [e]) <==> NeverTooEarly(s, es) && !TooEarly(Final(s, es), e)
    decreases |es|
  {
    if es == [] {
      assert es + [e] == [e] && [e][1..] == [];
      assert NeverTooEarly(Apply(s, e), []);
    } else {
      assert (es + [e])[0] == es[0] && (es + [e])[1..] == es[1..] + [e];
      TimelyAppend(Apply(s, es[0]), es[1..], e);
    }
  }

  lemma OneMore(s: Slots, es: seq<Event>, e: Event)
    requires Run(s, es) && Enabled(Final(s, es), e)
    ensures Run(s, es + [e]) && Final(s, es + [e]) == Apply(Final(s, es), e)
    ensures NeverTooEarly(s, es + [e]) <==> NeverTooEarly(s, es) && !TooEarly(Final(s, es), e)
  {
    OneStepRun(Final(s, es), e);
    RunAppend(s, es, [e]);
    TimelyAppend(s, es, e);
  }

  // ----- Forced releases

  /** An acquire for the agent has succeeded and is not stored. */
  predicate Acquired(s: Slots, a: AgentId) {
    exists c | c in s.flight :: s.flight[c].agent == a && InPhase(s.lim.calls, c, L.Holding)
  }

  /** An agent is charged for a slot that no running release will give back. */
  predicate Owns(s: Slots, a: AgentId) {
    a in s.slot || Acquired(s, a)
  }

  /** A forced release frees the agent unless an acquire for it has succeeded and is not stored yet. */
  lemma ForceFreesExactlyStoredSlots(s: Slots, a: AgentId)
    requires Inv(s)
    ensures Owns(Apply(s, Force(a)), a) <==> Acquired(s, a)
  {
  }

  /**
    A slot taken back after nested calls can go only one way: until it is stored it
    stays acquired, whatever else happens, and no release returns it. (The slot of a
    dispatch can also be abandoned.)
  */
  lemma {:induction false} OnlyAStoreEndsAReacquire(s: Slots, es: seq<Event>, c: Token)
    requires Inv(s) && Run(s, es) && c in s.flight && s.flight[c].redo && InPhase(s.lim.calls, c, L.Holding)
    requires Store(c) !in es
    ensures var t := Final(s, es);
            && c in t.flight && t.flight[c] == s.flight[c] && InPhase(t.lim.calls, c, L.Holding)
            && Enabled(t, Store(c)) && Apply(t, Store(c)).slot == t.slot[s.flight[c].agent := c]
    decreases |es|
  {
    if es != [] {
      var e := es[0];
      assert e in es;
      StepKeepsInv(s, e);
      ReacquireStays(s, e, c);
      assert forall x | x in es[1..] :: x in es;
      OnlyAStoreEndsAReacquire(Apply(s, e), es[1..], c);
    }
  }

  lemma ReacquireStays(s: Slots, e: Event, c: Token)
    requires TokensOk(s) && Enabled(s, e) && e != Store(c)
    requires c in s.flight && s.flight[c].redo && InPhase(s.lim.calls, c, L.Holding)
    ensures c in Apply(s, e).flight && Apply(s, e).flight[c] == s.flight[c] && InPhase(Apply(s, e).lim.calls, c, L.Holding)
  {
    match e
    case Store(d) =>
    case Attempt(d) =>
    case Return(d) =>
    case _ =>
  }

  // ----- The agent's own fields

  /** The slot fields of one agent; each method is one slotMu critical section. */
  class AgentSlot {
    const id: AgentId
    var nestedTaskCalls: int
    var slotRelease: Option<Token>
    var slotPendingReacq: bool

    /** The fields are this agent's part of the protocol state s. */
    ghost predicate Mirrors(s: Slots)
      reads this
    {
      && id in s.nested
      && nestedTaskCalls == s.nested[id]
      && slotRelease == (if id in s.slot then Some(s.slot[id]) else None)
      && slotPendingReacq == (id in s.pending)
    }

    constructor (a: AgentId)
      ensures id == a && nestedTaskCalls == 0 && slotRelease == None && !slotPendingReacq
    {
      id := a;
      nestedTaskCalls, slotRelease, slotPendingReacq := 0, None, false;
    }

    /** pauseOwnSlotForNestedCall up to the unlock; the caller then runs toRelease. */
    method PauseForNestedCall(ghost s: Slots) returns (toRelease: Option<Token>)
      requires Mirrors(s)
      modifies this
      ensures Mirrors(Apply(s, Pause(id)))
      ensures Apply(s, Pause(id)).taken == s.taken + (if toRelease.Some? then {toRelease.value} else {})
    {
      nestedTaskCalls := nestedTaskCalls + 1;
      toRelease := None;
      if nestedTaskCalls == 1 && slotRelease.Some? {
        toRelease := slotRelease;
        slotRelease := None;
        slotPendingReacq := true;
      }
    }

    /** The deferred func up to the unlock; when it answers true the caller acquires again. */
    method ResumeAfterNestedCall(ghost s: Slots, ghost c: Token) returns (needsReacquire: bool)
      requires Mirrors(s) && Enabled(s, Resume(id, c))
      modifies this
      ensures Mirrors(Apply(s, Resume(id, c)))
      ensures needsReacquire <==> Reacquires(s, id)
    {
      nestedTaskCalls := nestedTaskCalls - 1;
      needsReacquire := nestedTaskCalls == 0 && slotPendingReacq;
      if needsReacquire {
        slotPendingReacq := false;
      }
    }

    /** setOwnSlot, and the store after a successful reacquire. */
    method SetOwnSlot(ghost s: Slots, release: Token)
      requires Mirrors(s) && Enabled(s, Store(release)) && s.flight[release].agent == id
      modifies this
      ensures Mirrors(Apply(s, Store(release)))
    {
      slotRelease := Some(release);
    }

    /** releaseOwnSlot up to the unlock; the caller then runs what it returns. */
    method ReleaseOwnSlot(ghost s: Slots) returns (rel: Option<Token>)
      requires Mirrors(s)
      modifies this
      ensures Mirrors(Apply(s, Force(id)))
      ensures Apply(s, Force(id)).taken == s.taken + (if rel.Some? then {rel.value} else {})
    {
      rel := slotRelease;
      slotRelease := None;
    }
  }
}

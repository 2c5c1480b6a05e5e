/**
  The concurrency limiter of internal/agent/agent_runs.go: a counting semaphore
  whose limit can be changed while calls hold slots or wait for one.

  Every mutex critical section is one atomic step. The notification channel
  `changed` is a generation number: broadcasting closes the current generation
  and installs the next one, so generation g is closed exactly when a later one
  is installed. A call to acquireCancellable is a thread whose program counter is
  its Phase.
*/
module LimiterProtocol {
  import opened Wrappers

  type CallId = nat

  /** Where one call to acquireCancellable is. */
  datatype Phase =
    | Entered                   // passed the unlocked cancellation check
    | Parked(gen: Option<nat>)  // queued, selecting on the channel it captured
    | Holding                   // admitted; its release has not run
    | Released                  // its release has run
    | Refused                   // returned the cancellation error

  datatype Limiter = Limiter(
    max: int,
    holders: int,
    queued: int,
    changed: Option<nat>,       // None is the nil channel of a new limiter
    calls: map<CallId, Phase>,
    cancelled: set<CallId>)     // calls whose stop or cancel channel is closed

  const Fresh := Limiter(0, 0, 0, None, map[], {})

  datatype Event =
    | SetMax(n: int)
    | Enter(call: CallId)       // the unlocked cancellation check
    | Attempt(call: CallId)     // one pass of the loop under the lock
    | Release(call: CallId)     // the returned closure; may run any number of times
    | Cancel(call: CallId)      // its stop or cancel channel closes

  /** Receiving from a nil channel blocks forever; otherwise older means closed. */
  predicate Closed(s: Limiter, gen: Option<nat>) {
    gen.Some? && s.changed.Some? && gen.value < s.changed.value
  }

  function Broadcast(changed: Option<nat>): Option<nat> {
    match changed
    case None => Some(0)
    case Some(g) => Some(g + 1)
  }

  predicate HasRoom(s: Limiter) {
    s.max == 0 || s.holders < s.max
  }

  /** A parked call runs again when its channel or its cancellation fires. */
  predicate Enabled(s: Limiter, e: Event) {
    match e
    case SetMax(_) => true
    case Enter(c) => c !in s.calls
    case Attempt(c) =>
      && c in s.calls
      && (s.calls[c].Entered?
          || (s.calls[c].Parked? && (c in s.cancelled || Closed(s, s.calls[c].gen))))
    case Release(c) => c in s.calls && (s.calls[c].Holding? || s.calls[c].Released?)
    case Cancel(_) => true
  }

  function DoSetMax(s: Limiter, n: int): Limiter {
    s.(max := if n < 0 then 0 else n, changed := Broadcast(s.changed))
  }

  function DoEnter(s: Limiter, c: CallId): Limiter {
    s.(calls := s.calls[c := if c in s.cancelled then Refused else Entered])
  }

  function DoAttempt(s: Limiter, c: CallId): Limiter
    requires c in s.calls
  {
    var waiting := s.calls[c].Parked?;
    var left := if waiting then s.queued - 1 else s.queued;
    if c in s.cancelled then
      s.(queued := left, calls := s.calls[c := Refused])
    else if HasRoom(s) then
      s.(queued := left, holders := s.holders + 1, calls := s.calls[c := Holding])
    else
      s.(queued := if waiting then s.queued else s.queued + 1,
         calls := s.calls[c := Parked(s.changed)])
  }

  function DoRelease(s: Limiter, c: CallId): Limiter
    requires c in s.calls
  {
    if s.calls[c].Holding? then
      s.(holders := if s.holders > 0 then s.holders - 1 else s.holders,
         changed := Broadcast(s.changed),
         calls := s.calls[c := Released])
    else
      s  // the once guard
  }

  function Apply(s: Limiter, e: Event): Limiter
    requires Enabled(s, e)
  {
    match e
    case SetMax(n) => DoSetMax(s, n)
    case Enter(c) => DoEnter(s, c)
    case Attempt(c) => DoAttempt(s, c)
    case Release(c) => DoRelease(s, c)
    case Cancel(c) => s.(cancelled := s.cancelled + {c})
  }

  // ----- The invariant

  function Holders(s: Limiter): set<CallId> {
    set c | c in s.calls && s.calls[c].Holding?
  }

  function Waiters(s: Limiter): set<CallId> {
    set c | c in s.calls && s.calls[c].Parked?
  }

  /** No wake-up is lost: whoever waits on the live channel waits for a reason. */
  ghost predicate NoLostWakeup(s: Limiter) {
    forall c | c in s.calls && s.calls[c].Parked? ::
      && s.calls[c].gen.Some?
      && s.changed.Some?
      && s.calls[c].gen.value <= s.changed.value
      && (s.calls[c].gen == s.changed ==> s.max > 0 && s.holders >= s.max)
  }

  ghost predicate Inv(s: Limiter) {
    && s.max >= 0
    && s.holders == |Holders(s)|
    && s.queued == |Waiters(s)|
    && NoLostWakeup(s)
    && (s.changed.None? ==> s.max == 0)
  }

  lemma PhaseCounts(s: Limiter, t: Limiter, c: CallId, p: Phase)
    requires t.calls == s.calls[c := p]
    ensures Holders(t) == if p.Holding? then Holders(s) + {c} else Holders(s) - {c}
    ensures Waiters(t) == if p.Parked? then Waiters(s) + {c} else Waiters(s) - {c}
    ensures c in Holders(s) <==> c in s.calls && s.calls[c].Holding?
    ensures c in Waiters(s) <==> c in s.calls && s.calls[c].Parked?
  {
  }

  lemma FreshInv()
    ensures Inv(Fresh)
  {
    assert Holders(Fresh) == {} && Waiters(Fresh) == {};
  }

  /** Counters that follow their sets, and a wake-up that is not lost. */
  lemma Recount(s: Limiter, t: Limiter)
    requires Inv(s) && t.calls == s.calls && t.holders == s.holders && t.queued == s.queued
    ensures t.holders == |Holders(t)| && t.queued == |Waiters(t)|
  {
    assert Holders(t) == Holders(s) && Waiters(t) == Waiters(s);
  }

  lemma SetMaxKeepsInv(s: Limiter, n: int)
    requires Inv(s)
    ensures Inv(DoSetMax(s, n))
  {
    Recount(s, DoSetMax(s, n));
  }

  lemma EnterKeepsInv(s: Limiter, c: CallId)
    requires Inv(s) && c !in s.calls
    ensures Inv(DoEnter(s, c))
  {
    PhaseCounts(s, DoEnter(s, c), c, DoEnter(s, c).calls[c]);
  }

  lemma AttemptCounts(s: Limiter, c: CallId)
    requires Inv(s) && Enabled(s, Attempt(c))
    ensures var t := DoAttempt(s, c); t.holders == |Holders(t)| && t.queued == |Waiters(t)|
  {
    PhaseCounts(s, DoAttempt(s, c), c, DoAttempt(s, c).calls[c]);
  }

  lemma AttemptKeepsInv(s: Limiter, c: CallId)
    requires Inv(s) && Enabled(s, Attempt(c))
    ensures Inv(DoAttempt(s, c))
  {
    AttemptCounts(s, c);
  }

  lemma ReleaseKeepsInv(s: Limiter, c: CallId)
    requires Inv(s) && Enabled(s, Release(c))
    ensures Inv(DoRelease(s, c))
  {
    if s.calls[c].Holding? {
      PhaseCounts(s, DoRelease(s, c), c, Released);
    }
  }

  lemma StepKeepsInv(s: Limiter, e: Event)
    requires Inv(s) && Enabled(s, e)
    ensures Inv(Apply(s, e))
  {
    match e
    case SetMax(n) => SetMaxKeepsInv(s, n);
    case Cancel(_) => Recount(s, Apply(s, e));
    case Enter(c) => EnterKeepsInv(s, c);
    case Attempt(c) => AttemptKeepsInv(s, c);
    case Release(c) => ReleaseKeepsInv(s, c);
  }

  // ----- Runs

  ghost predicate Run(s: Limiter, es: seq<Event>)
    decreases |es|
  {
    es == [] || (Enabled(s, es[0]) && Run(Apply(s, es[0]), es[1..]))
  }

  ghost function Final(s: Limiter, es: seq<Event>): Limiter
    requires Run(s, es)
    decreases |es|
  {
    if es == [] then s else Final(Apply(s, es[0]), es[1..])
  }

  /** Over every interleaving, from any good state, accounting and wake-ups hold. */
  lemma {:induction false} RunKeepsInv(s: Limiter, es: seq<Event>)
    requires Inv(s) && Run(s, es)
    ensures Inv(Final(s, es))
    decreases |es|
  {
    if es != [] {
      StepKeepsInv(s, es[0]);
      RunKeepsInv(Apply(s, es[0]), es[1..]);
    }
  }

  /** The accounting claim spelled out for a new limiter. */
  lemma EveryRunAccounts(es: seq<Event>)
    requires Run(Fresh, es)
    ensures var t := Final(Fresh, es);
            && t.holders == |Holders(t)|
            && t.queued == |Waiters(t)|
            && (t.changed.None? ==> t.max == 0 && t.queued == 0)
  {
    FreshInv();
    RunKeepsInv(Fresh, es);
    var t := Final(Fresh, es);
    assert t.changed.None? ==> Waiters(t) == {};
  }

  lemma {:induction false} RunAppend(s: Limiter, es: seq<Event>, more: seq<Event>)
    requires Run(s, es) && Run(Final(s, es), more)
    ensures Run(s, es + more) && Final(s, es + more) == Final(Final(s, es), more)
    decreases |es|
  {
    if es == [] {
      assert es + more == more;
    } else {
      RunAppend(Apply(s, es[0]), es[1..], more);
      assert (es + more)[0] == es[0] && (es + more)[1..] == es[1..] + more;
    }
  }

  lemma OneStepRun(s: Limiter, e: Event)
    requires Enabled(s, e)
    ensures Run(s, [e]) && Final(s, [e]) == Apply(s, e)
  {
    assert [e][1..] == [];
    assert Final(s, [e]) == Final(Apply(s, e), []);
  }

  /** At each look the call passes the loop at once if it can. */
  ghost predicate Tried(s: Limiter, es: seq<Event>, looks: seq<nat>, c: CallId) {
    forall k | 0 <= k < |looks| ::
      && looks[k] <= |es| && Run(s, es[..looks[k]])
      && (Enabled(Final(s, es[..looks[k]]), Attempt(c)) ==> looks[k] < |es| && es[looks[k]] == Attempt(c))
  }

  lemma TriedBefore(s: Limiter, es: seq<Event>, more: seq<Event>, looks: seq<nat>, c: CallId)
    requires Tried(s, es, looks, c)
    ensures Tried(s, es + more, looks, c)
  {
    forall k | 0 <= k < |looks|
      ensures (es + more)[..looks[k]] == es[..looks[k]]
    {
    }
  }

  lemma TriedNow(s: Limiter, es: seq<Event>, more: seq<Event>, looks: seq<nat>, c: CallId)
    requires Run(s, es) && Tried(s, es, looks, c)
    requires if Enabled(Final(s, es), Attempt(c)) then more == [Attempt(c)] else more == []
    ensures Tried(s, es + more, looks + [|es|], c)
  {
    TriedBefore(s, es, more, looks, c);
    assert (es + more)[..|es|] == es;
  }

  /** Steps of the other threads: anything but entering, looping or releasing as c. */
  predicate Foreign(c: CallId, e: Event) {
    e.SetMax? || e.Cancel? || e.call != c
  }

  lemma {:induction false} ForeignRunLeavesPhase(s: Limiter, es: seq<Event>, c: CallId)
    requires Run(s, es) && c in s.calls
    requires forall i | 0 <= i < |es| :: Foreign(c, es[i])
    ensures c in Final(s, es).calls && Final(s, es).calls[c] == s.calls[c]
    decreases |es|
  {
    if es != [] {
      ForeignRunLeavesPhase(Apply(s, es[0]), es[1..], c);
    }
  }

  // ----- What the invariant gives

  /** The `holders > 0` guard in a release never clamps. */
  lemma ReleaseNeverClamps(s: Limiter, c: CallId)
    requires Inv(s) && c in s.calls && s.calls[c].Holding?
    ensures s.holders > 0
    ensures DoRelease(s, c).holders == s.holders - 1
    ensures DoRelease(DoRelease(s, c), c) == DoRelease(s, c)
  {
    assert c in Holders(s);
  }

  lemma AdmissionRespectsLimit(s: Limiter, c: CallId)
    requires Inv(s) && Enabled(s, Attempt(c))
    requires Apply(s, Attempt(c)).calls[c].Holding?
    ensures var t := Apply(s, Attempt(c));
            && t.holders == s.holders + 1
            && (t.max == 0 || t.holders <= t.max)
            && c !in s.cancelled
  {
  }

  /** With room for one more, every waiting call can run, and is admitted unless cancelled. */
  lemma RoomWakesEveryWaiter(s: Limiter, c: CallId)
    requires Inv(s) && HasRoom(s) && c in Waiters(s)
    ensures Enabled(s, Attempt(c))
    ensures Apply(s, Attempt(c)).calls[c] == if c in s.cancelled then Refused else Holding
  {
  }

  /**
    A call is stuck only behind a real holder, and that holder's release (or any
    change of the limit) makes every waiting call runnable again.
  */
  lemma StuckOnlyBehindAHolder(s: Limiter, c: CallId) returns (h: CallId)
    requires Inv(s) && c in Waiters(s) && !Enabled(s, Attempt(c))
    ensures h in Holders(s) && Enabled(s, Release(h))
    ensures forall w | w in Waiters(s) ::
              && Enabled(Apply(s, Release(h)), Attempt(w))
              && forall n :: Enabled(Apply(s, SetMax(n)), Attempt(w))
  {
    assert s.holders >= s.max > 0;
    h :| h in Holders(s);
  }

  ghost predicate WithinLimit(s: Limiter) {
    s.max == 0 || s.holders <= s.max
  }

  /** Exactly which steps leave more holders than the limit: shrinking below the holders. */
  lemma LimitBrokenOnlyByShrinking(s: Limiter, e: Event)
    requires Inv(s) && WithinLimit(s) && Enabled(s, e)
    ensures WithinLimit(Apply(s, e)) <==> !(e.SetMax? && 0 < e.n < s.holders)
  {
    if e.Release? && s.calls[e.call].Holding? {
      ReleaseNeverClamps(s, e.call);
    }
  }

  /** Under a constant limit no interleaving exceeds it. */
  lemma {:induction false} ConstantLimitHolds(s: Limiter, es: seq<Event>)
    requires Inv(s) && WithinLimit(s) && Run(s, es)
    requires forall i | 0 <= i < |es| :: !es[i].SetMax?
    ensures WithinLimit(Final(s, es)) && Final(s, es).max == s.max
    decreases |es|
  {
    if es != [] {
      LimitBrokenOnlyByShrinking(s, es[0]);
      StepKeepsInv(s, es[0]);
      ConstantLimitHolds(Apply(s, es[0]), es[1..]);
    }
  }

  /** After a shrink the excess only drains: nobody is admitted until it is gone. */
  lemma {:induction false} ExcessOnlyDrains(s: Limiter, es: seq<Event>)
    requires Inv(s) && Run(s, es)
    requires forall i | 0 <= i < |es| :: !es[i].SetMax?
    ensures !WithinLimit(Final(s, es)) ==> Final(s, es).holders <= s.holders
    decreases |es|
  {
    if es != [] {
      var t := Apply(s, es[0]);
      StepKeepsInv(s, es[0]);
      ExcessOnlyDrains(t, es[1..]);
      if WithinLimit(t) {
        ConstantLimitHolds(t, es[1..]);
      }
    }
  }

  lemma CancelledStaysOut(s: Limiter, e: Event, c: CallId)
    requires Enabled(s, e) && c in s.cancelled && !(c in s.calls && s.calls[c].Holding?)
    ensures c in Apply(s, e).cancelled && !(c in Apply(s, e).calls && Apply(s, e).calls[c].Holding?)
  {
  }

  /** A call that was cancelled before it held a slot never holds one, whatever runs later. */
  lemma {:induction false} CancelledNeverHolds(s: Limiter, c: CallId, es: seq<Event>)
    requires !(c in s.calls && s.calls[c].Holding?) && Run(Apply(s, Cancel(c)), es)
    ensures var t := Final(Apply(s, Cancel(c)), es); !(c in t.calls && t.calls[c].Holding?)
  {
    StaysOut(Apply(s, Cancel(c)), c, es);
  }

  lemma {:induction false} StaysOut(s: Limiter, c: CallId, es: seq<Event>)
    requires c in s.cancelled && !(c in s.calls && s.calls[c].Holding?) && Run(s, es)
    ensures !(c in Final(s, es).calls && Final(s, es).calls[c].Holding?)
    decreases |es|
  {
    if es != [] {
      CancelledStaysOut(s, es[0], c);
      StaysOut(Apply(s, es[0]), c, es[1..]);
    }
  }

  /** And it does not wait for anything: its next pass is enabled and refuses it. */
  lemma CancelledIsRefused(s: Limiter, c: CallId)
    requires c in s.calls && (s.calls[c].Entered? || s.calls[c].Parked?)
    ensures var t := Apply(s, Cancel(c));
            Enabled(t, Attempt(c)) && Apply(t, Attempt(c)).calls[c].Refused? && Apply(t, Attempt(c)).holders == s.holders
  {
  }

  // ----- The limiter object

  /**
    The limiter with the fields the source has. `cancelled` says which stop or
    cancel channels are closed; `calls` are the threads that use the limiter.
  */
  class ConcurrencyLimiter {
    var max: int
    var holders: int
    var queued: int
    var changed: Option<nat>
    var calls: map<CallId, Phase>
    var cancelled: set<CallId>

    function State(): Limiter
      reads this
    {
      Limiter(max, holders, queued, changed, calls, cancelled)
    }

    constructor ()
      ensures State() == Fresh
    {
      max, holders, queued, changed := 0, 0, 0, None;
      calls, cancelled := map[], {};
    }

    /**
      Whatever was captured before is closed now and what is captured from now on is
      not: every parked call runs again.
    */
    method BroadcastLocked()
      modifies this`changed
      ensures changed == Broadcast(old(changed))
      ensures forall gen: nat | old(changed).Some? && gen <= old(changed).value :: Closed(State(), Some(gen))
      ensures !Closed(State(), changed)
      ensures old(Inv(State())) ==> forall c | c in calls && calls[c].Parked? :: Enabled(State(), Attempt(c))
    {
      if changed.None? {
        changed := Some(0);
        return;
      }
      changed := Some(changed.value + 1);
    }

    method SetLimit(n: int)
      modifies this
      ensures State() == Apply(old(State()), SetMax(n))
    {
      var limit := n;
      if limit < 0 {
        limit := 0;
      }
      max := limit;
      BroadcastLocked();
    }

    /** One pass of acquireCancellable's loop, made under the lock. */
    method Pass(c: CallId, waiting: bool) returns (phase: Phase)
      requires Enabled(State(), Attempt(c))
      requires waiting == calls[c].Parked?
      modifies this
      ensures State() == Apply(old(State()), Attempt(c))
      ensures phase == calls[c]
    {
      if c in cancelled {
        if waiting {
          queued := queued - 1;
        }
        phase := Refused;
      } else if max == 0 || holders < max {
        if waiting {
          queued := queued - 1;
        }
        holders := holders + 1;
        phase := Holding;
      } else {
        if !waiting {
          queued := queued + 1;
        }
        phase := Parked(changed);
      }
      calls := calls[c := phase];
    }

    /** The release closure; `done` is its sync.Once. */
    method RunRelease(c: CallId, done: bool)
      requires Enabled(State(), Release(c)) && done == calls[c].Released?
      modifies this
      ensures State() == Apply(old(State()), Release(c))
    {
      if !done {
        if holders > 0 {
          holders := holders - 1;
        }
        BroadcastLocked();
        calls := calls[c := Released];
      }
    }

    /** Whatever the other threads do between two of c's steps: any of their steps, in any number. */
    method Others(c: CallId) returns (ghost es: seq<Event>)
      modifies this
      ensures forall i | 0 <= i < |es| :: Foreign(c, es[i])
      ensures Run(old(State()), es) && State() == Final(old(State()), es)
    {
      es := [];
      var steps: int := *;
      while 0 < steps
        invariant forall i | 0 <= i < |es| :: Foreign(c, es[i])
        invariant Run(old(State()), es) && State() == Final(old(State()), es)
      {
        var e: Event := *;
        if Foreign(c, e) && Enabled(State(), e) {
          ghost var here := State();
          var next := Apply(State(), e);
          max, holders, queued, changed := next.max, next.holders, next.queued, next.changed;
          calls, cancelled := next.calls, next.cancelled;
          OneStepRun(here, e);
          RunAppend(old(State()), es, [e]);
          es := es + [e];
        }
        steps := steps - 1;
      }
    }

    /** One turn of the waiting loop: what the others did, a look, and a pass if the call can make one. */
    method Look(c: CallId, before: Phase, ghost start: Limiter, ghost es: seq<Event>, ghost looks: seq<nat>)
      returns (phase: Phase, ghost more: seq<Event>, ghost looked: seq<nat>)
      requires Run(start, es) && State() == Final(start, es) && Inv(State()) && Tried(start, es, looks, c)
      requires c in calls && before == calls[c] && (before.Entered? || before.Parked?)
      modifies this
      ensures Run(start, more) && State() == Final(start, more) && Inv(State()) && Tried(start, more, looked, c)
      ensures c in calls && phase == calls[c] && !phase.Entered? && !phase.Released? && |looked| == |looks| + 1
    {
      ghost var mid := State();
      ghost var theirs := Others(c);
      ForeignRunLeavesPhase(mid, theirs, c);
      RunKeepsInv(mid, theirs);
      RunAppend(start, es, theirs);
      TriedBefore(start, es, theirs, looks, c);
      more, phase := es + theirs, before;
      // the select: the call's own cancellation or the channel it captured
      var awake := c in cancelled || phase.Entered?
                   || (phase.gen.Some? && changed.Some? && phase.gen.value < changed.value);
      ghost var here := State();
      TriedNow(start, more, if awake then [Attempt(c)] else [], looks, c);
      looked := looks + [|more|];
      if awake {
        StepKeepsInv(here, Attempt(c));
        phase := Pass(c, phase.Parked?);
        OneStepRun(here, Attempt(c));
        RunAppend(start, more, [Attempt(c)]);
        more := more + [Attempt(c)];
      } else {
        assert more + [] == more;
      }
    }

    /**
      acquireCancellable as one thread runs it among others. `wakeups` bounds how
      often its select may fire; a call still parked then is still waiting. A call that
      can make its pass when it looks makes it at once.
    */
    method AcquireCancellable(c: CallId, wakeups: nat) returns (phase: Phase, ghost es: seq<Event>, ghost looks: seq<nat>)
      requires Inv(State()) && c !in calls
      modifies this
      ensures Run(old(State()), es) && State() == Final(old(State()), es) && Inv(State())
      ensures c in calls && phase == calls[c] && !phase.Entered? && !phase.Released?
      ensures phase.Parked? ==> c in Waiters(State())
      ensures phase.Holding? ==> c in Holders(State())
      ensures Tried(old(State()), es, looks, c) && (phase.Parked? ==> |looks| == wakeups + 1)
    {
      ghost var start := State();
      phase := if c in cancelled then Refused else Entered;
      calls := calls[c := phase];
      es, looks := [Enter(c)], [];
      var turn := 0;
      OneStepRun(start, Enter(c));
      StepKeepsInv(start, Enter(c));
      while turn <= wakeups && (phase.Entered? || phase.Parked?)
        invariant Run(start, es) && State() == Final(start, es) && Inv(State())
        invariant c in calls && phase == calls[c] && !phase.Released?
        invariant phase.Entered? ==> turn == 0
        invariant Tried(start, es, looks, c) && |looks| == turn <= wakeups + 1
        decreases wakeups + 1 - turn
      {
        phase, es, looks := Look(c, phase, start, es, looks);
        turn := turn + 1;
      }
    }
  }
}

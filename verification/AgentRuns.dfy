/**
  The objects of internal/agent/agent_runs.go: runs, the registries that hold
  them and the agents behind them. A registry's runs have agents with registries
  of their own, so the objects form a graph that may be cyclic; CancelAll walks it.
*/
module AgentRuns {
  import opened Wrappers
  import opened RunLifecycle
  import L = LimiterProtocol

  class Agent {
    var slotRelease: Option<L.CallId>
    var stopped: bool                  // its stop channel is closed
    var runs: AgentRunRegistry?

    constructor (registry: AgentRunRegistry?)
      ensures runs == registry && slotRelease == None && !stopped
    {
      slotRelease, stopped, runs := None, false, registry;
    }

    method Cancel()
      modifies this`stopped
      ensures stopped
    {
      if !stopped {
        stopped := true;
      }
    }

    method ReleaseOwnSlot(pool: L.ConcurrencyLimiter)
      requires slotRelease.Some? ==> L.Enabled(pool.State(), L.Release(slotRelease.value))
      requires slotRelease.Some? ==> pool.calls[slotRelease.value].Holding?
      modifies this`slotRelease, pool
      ensures slotRelease == None
      ensures pool.State() == if old(slotRelease).None? then old(pool.State())
                              else L.Apply(old(pool.State()), L.Release(old(slotRelease).value))
    {
      var rel := slotRelease;
      slotRelease := None;
      if rel.Some? {
        pool.RunRelease(rel.value, false);
      }
    }
  }

  class AgentRun {
    var status: Status
    var result: string
    var err: string
    var done: nat
    var onceFired: bool
    var closed: set<nat>
    const dispatcher: string
    var sub: Agent?
    var cancel: Agent?        // the agent whose Cancel method is stored in the run

    function View(): Run
      reads this
    {
      Run(status, result, err, done, onceFired, closed)
    }

    constructor (owner: string, subAgent: Agent?)
      ensures View() == New && dispatcher == owner && sub == subAgent && cancel == subAgent
    {
      status, result, err, done, onceFired, closed := Running, "", "", 0, false, {};
      dispatcher, sub, cancel := owner, subAgent, subAgent;
    }

    method CloseDoneOnce()
      modifies this`onceFired, this`closed
      ensures View() == CloseDone(old(View()))
    {
      if !onceFired {
        onceFired := true;
        closed := closed + {done};
      }
    }

    method FinishWithResult(res: string)
      modifies this
      ensures View() == Do(old(View()), FinishOK(res))
      ensures sub == old(sub) && cancel == old(cancel)
    {
      if status != Running {
        return;
      }
      status := Done;
      result := res;
      CloseDoneOnce();
    }

    method FinishWithError(message: string)
      modifies this
      ensures View() == Do(old(View()), FinishErr(message))
      ensures sub == old(sub) && cancel == old(cancel)
    {
      if status != Running {
        return;
      }
      status := Failed;
      err := message;
      CloseDoneOnce();
    }

    method TryFinishCancelled()
      modifies this`status, this`err, this`onceFired, this`closed
      ensures View() == Do(old(View()), TryCancel)
    {
      var cancelled := false;
      if status == Running || status == Queued {
        status := Cancelled;
        err := "cancelled";
        cancelled := true;
      }
      if cancelled {
        CloseDoneOnce();
      }
    }

    method MarkAsQueued()
      modifies this
      ensures View() == Do(old(View()), MarkQueued)
      ensures sub == old(sub) && cancel == old(cancel)
    {
      if status == Running {
        status := Queued;
      }
    }

    method StartExecution() returns (ok: bool)
      modifies this
      ensures View() == Do(old(View()), BeginExecution) && ok == Accepts(old(View()), BeginExecution)
      ensures sub == old(sub) && cancel == old(cancel)
    {
      match status
      case Queued =>
        status := Running;
        return true;
      case Running => return true;
      case _ => return false;
    }

    method StartResume() returns (ok: bool)
      modifies this
      ensures View() == Do(old(View()), BeginResume) && ok == Accepts(old(View()), BeginResume)
      ensures sub == old(sub) && cancel == old(cancel)
    {
      if status != Cancelled && status != Done {
        return false;
      }
      status := Running;
      done := done + 1;
      onceFired := false;
      return true;
    }
  }

  // ----- The object graph

  /** The objects a walk may meet. */
  datatype World = World(regs: set<AgentRunRegistry>, runs: set<AgentRun>, agents: set<Agent>, pool: L.ConcurrencyLimiter)

  /** The references between those objects; a walk changes none of them. */
  datatype Graph = Graph(
    held: map<AgentRunRegistry, set<AgentRun>>,
    subs: map<AgentRun, Agent?>,
    cancels: map<AgentRun, Agent?>,
    owned: map<Agent, AgentRunRegistry?>)

  ghost function Links(w: World): Graph
    reads w.regs`runs, w.runs`sub, w.runs`cancel, w.agents`runs
  {
    Graph(map g | g in w.regs :: g.runs.Values, map r | r in w.runs :: r.sub,
          map r | r in w.runs :: r.cancel, map a | a in w.agents :: a.runs)
  }

  /** Every reference leads to an object of the world. */
  ghost predicate Closed(g: Graph) {
    && g.subs.Keys == g.cancels.Keys
    && (forall h | h in g.held :: g.held[h] <= g.subs.Keys)
    && (forall r | r in g.subs && g.subs[r] != null :: g.subs[r] in g.owned)
    && (forall r | r in g.cancels && g.cancels[r] != null :: g.cancels[r] in g.owned)
    && (forall a | a in g.owned && g.owned[a] != null :: g.owned[a] in g.held)
  }

  /** k belongs to the agent of one of h's runs. */
  ghost predicate Child(g: Graph, h: AgentRunRegistry, k: AgentRunRegistry) {
    && h in g.held
    && exists r | r in g.held[h] :: r in g.subs && g.subs[r] in g.owned && g.owned[g.subs[r]] == k
  }

  /** A chain of registries, each reached through a run of the one before. */
  ghost predicate Path(g: Graph, p: seq<AgentRunRegistry>) {
    p != [] && forall i | 0 <= i < |p| - 1 :: Child(g, p[i], p[i + 1])
  }

  /** A set closed under Child holds every registry a path from one of its members reaches. */
  lemma {:induction false} ClosedSetHoldsPaths(g: Graph, seen: set<AgentRunRegistry>, p: seq<AgentRunRegistry>)
    requires Path(g, p) && p[0] in seen
    requires forall h, k | h in seen && Child(g, h, k) :: k in seen
    ensures p[|p| - 1] in seen
    decreases |p|
  {
    if |p| > 1 {
      assert Child(g, p[0], p[1]);
      forall i | 0 <= i < |p| - 2
        ensures Child(g, p[1..][i], p[1..][i + 1])
      {
        assert Child(g, p[i + 1], p[i + 2]);
      }
      ClosedSetHoldsPaths(g, seen, p[1..]);
    }
  }

  // ----- What a walk changes

  /** The changeable part of a world in one state. */
  datatype Snapshot = Snapshot(
    runs: map<AgentRun, Run>,
    slots: map<Agent, Option<L.CallId>>,
    stopped: map<Agent, bool>,
    calls: map<L.CallId, L.Phase>)

  ghost function RunViews(w: World): map<AgentRun, Run>
    reads w.runs
  {
    map r | r in w.runs :: r.View()
  }

  ghost function SlotViews(w: World): map<Agent, Option<L.CallId>>
    reads w.agents`slotRelease
  {
    map a | a in w.agents :: a.slotRelease
  }

  ghost function StopViews(w: World): map<Agent, bool>
    reads w.agents`stopped
  {
    map a | a in w.agents :: a.stopped
  }

  ghost function Snap(w: World): Snapshot
    reads w.runs, w.agents`slotRelease, w.agents`stopped, w.pool`calls
  {
    Snapshot(RunViews(w), SlotViews(w), StopViews(w), w.pool.calls)
  }

  /** s describes the runs and agents that g links. */
  ghost predicate Fits(g: Graph, s: Snapshot) {
    && s.runs.Keys == g.subs.Keys == g.cancels.Keys
    && s.slots.Keys == g.owned.Keys && s.stopped.Keys == g.owned.Keys
  }

  /** Stored slots are live in the pool, one agent per slot. */
  ghost predicate SlotsLive(s: Snapshot) {
    && (forall a | a in s.slots && s.slots[a].Some? ::
          s.slots[a].value in s.calls && s.calls[s.slots[a].value].Holding?)
    && (forall a, b | a in s.slots && b in s.slots && a != b && s.slots[a].Some? && s.slots[b].Some? ::
          s.slots[a].value != s.slots[b].value)
  }

  /** A run is left alone or cancelled while active; never anything else. */
  predicate LeftOrCancelled(before: Run, after: Run) {
    after == before || (IsActive(before.status) && after == Do(before, TryCancel))
  }

  /** r's agent stores no slot and the agent its Cancel belongs to is stopped. */
  ghost predicate LetGo(g: Graph, t: Snapshot, r: AgentRun) {
    && (r in g.subs && g.subs[r] in t.slots ==> t.slots[g.subs[r]] == None)
    && (r in g.cancels && g.cancels[r] in t.stopped ==> t.stopped[g.cancels[r]])
  }

  ghost predicate SlotsReturned(s: Snapshot, t: Snapshot) {
    && (forall c | c in s.calls && s.calls[c].Released? :: c in t.calls && t.calls[c].Released?)
    && (forall a | a in s.slots && a in t.slots && t.slots[a] != s.slots[a] ::
          && s.slots[a].Some? && t.slots[a] == None
          && s.slots[a].value in t.calls && t.calls[s.slots[a].value].Released?)
  }

  /** Everything a walk may have done: cancel active runs, stop their agents, return their slots. */
  ghost predicate Walked(g: Graph, s: Snapshot, t: Snapshot) {
    && t.runs.Keys == s.runs.Keys && t.slots.Keys == s.slots.Keys && t.stopped.Keys == s.stopped.Keys
    && (forall r | r in s.runs :: LeftOrCancelled(s.runs[r], t.runs[r]))
    && (forall r | r in s.runs && t.runs[r] != s.runs[r] :: LetGo(g, t, r))
    && (forall a | a in s.stopped :: s.stopped[a] ==> t.stopped[a])
    && SlotsReturned(s, t)
  }

  lemma WalkedTwice(g: Graph, s: Snapshot, t: Snapshot, u: Snapshot)
    requires Walked(g, s, t) && Walked(g, t, u)
    ensures Walked(g, s, u)
  {
    forall r | r in s.runs && u.runs[r] != s.runs[r]
      ensures LetGo(g, u, r)
    {
      if u.runs[r] == t.runs[r] {
        assert LetGo(g, t, r);
      }
    }
  }

  /** No run outside todo is running or queued. */
  ghost predicate Idle(s: Snapshot, runs: set<AgentRun>, todo: set<AgentRun>) {
    forall r | r in runs && r !in todo :: r in s.runs && !IsActive(s.runs[r].status)
  }

  lemma IdleStaysIdle(g: Graph, s: Snapshot, t: Snapshot, runs: set<AgentRun>, todo: set<AgentRun>)
    requires Idle(s, runs, todo) && Walked(g, s, t)
    ensures Idle(t, runs, todo)
  {
  }

  // ----- One run of the walk, as a function

  function MarkCancelled(g: Graph, s: Snapshot, r: AgentRun): Snapshot
    requires r in s.runs && r in g.cancels
  {
    var a := g.cancels[r];
    s.(runs := s.runs[r := Do(s.runs[r], TryCancel)],
       stopped := if a != null then s.stopped[a := true] else s.stopped)
  }

  function GiveBack(s: Snapshot, a: Agent?): Snapshot {
    if a in s.slots && s.slots[a].Some? then
      s.(slots := s.slots[a := None], calls := s.calls[s.slots[a].value := L.Released])
    else s
  }

  function CancelOne(g: Graph, s: Snapshot, r: AgentRun): Snapshot
    requires r in s.runs && r in g.subs && r in g.cancels
  {
    if IsActive(s.runs[r].status) then GiveBack(MarkCancelled(g, s, r), g.subs[r]) else s
  }

  lemma GiveBackReturns(s: Snapshot, a: Agent?)
    requires SlotsLive(s)
    ensures var t := GiveBack(s, a);
            && SlotsLive(t) && SlotsReturned(s, t)
            && t.slots.Keys == s.slots.Keys && (a in t.slots ==> t.slots[a] == None)
            && t.runs == s.runs && t.stopped == s.stopped
  {
  }

  lemma MarkMarks(g: Graph, s: Snapshot, r: AgentRun)
    requires Closed(g) && Fits(g, s) && r in s.runs && IsActive(s.runs[r].status)
    ensures var t := MarkCancelled(g, s, r);
            && Fits(g, t) && t.slots == s.slots && t.calls == s.calls
            && !IsActive(t.runs[r].status)
            && (forall q | q in s.runs :: LeftOrCancelled(s.runs[q], t.runs[q]))
            && (forall q | q in s.runs && q != r :: t.runs[q] == s.runs[q])
            && (g.cancels[r] in t.stopped ==> t.stopped[g.cancels[r]])
            && (forall a | a in s.stopped :: s.stopped[a] ==> t.stopped[a])
  {
  }

  lemma CancelOneWalks(g: Graph, s: Snapshot, r: AgentRun)
    requires Closed(g) && Fits(g, s) && SlotsLive(s) && r in s.runs
    ensures var t := CancelOne(g, s, r);
            Fits(g, t) && SlotsLive(t) && Walked(g, s, t) && !IsActive(t.runs[r].status)
  {
    if IsActive(s.runs[r].status) {
      var t, u := MarkCancelled(g, s, r), CancelOne(g, s, r);
      MarkMarks(g, s, r);
      GiveBackReturns(t, g.subs[r]);
      assert LetGo(g, u, r);
      assert SlotsReturned(s, u);
    }
  }

  /** One more run of a level: everything the level had achieved stands. */
  lemma LevelStep(g: Graph, s: Snapshot, t: Snapshot, r: AgentRun, runs: set<AgentRun>, todo: set<AgentRun>)
    requires Closed(g) && Fits(g, t) && SlotsLive(t) && Walked(g, s, t) && Idle(t, runs, todo)
    requires r in t.runs
    ensures var u := CancelOne(g, t, r);
            Fits(g, u) && SlotsLive(u) && Walked(g, s, u) && Idle(u, runs, todo - {r})
  {
    var u := CancelOne(g, t, r);
    CancelOneWalks(g, t, r);
    WalkedTwice(g, s, t, u);
    IdleStaysIdle(g, t, u, runs, todo);
  }

  // ----- The walk over the graph

  /** Every registry in seen and not in before has all its children in seen, except perhaps those in open. */
  ghost predicate Explored(g: Graph, before: set<AgentRunRegistry>, seen: set<AgentRunRegistry>, open: set<AgentRunRegistry>) {
    forall h, k | h in seen && h !in before && h !in open && k in g.held && Child(g, h, k) :: k in seen
  }

  /** Every registry the walk added holds no running or queued run. */
  ghost predicate QuietAll(g: Graph, s: Snapshot, before: set<AgentRunRegistry>, seen: set<AgentRunRegistry>) {
    forall h | h in seen && h !in before && h in g.held :: Idle(s, g.held[h], {})
  }

  /** order lists the registries the walk added, each once. */
  ghost predicate EachOnce(order: seq<AgentRunRegistry>, before: set<AgentRunRegistry>, seen: set<AgentRunRegistry>) {
    && (forall i, j | 0 <= i < j < |order| :: order[i] != order[j])
    && (forall h | h in order :: h in seen && h !in before)
    && (forall h | h in seen && h !in before :: h in order)
  }

  /** The children reached through the runs already descended into. */
  ghost predicate Descended(g: Graph, runs: set<AgentRun>, todo: set<AgentRun>, seen: set<AgentRunRegistry>) {
    forall r | r in runs && r !in todo && r in g.subs && g.subs[r] in g.owned && g.owned[g.subs[r]] != null ::
      g.owned[g.subs[r]] in seen
  }

  lemma QuietStaysQuiet(g: Graph, s: Snapshot, t: Snapshot, before: set<AgentRunRegistry>, seen: set<AgentRunRegistry>)
    requires QuietAll(g, s, before, seen) && Walked(g, s, t)
    ensures QuietAll(g, t, before, seen)
  {
    forall h | h in seen && h !in before && h in g.held
      ensures Idle(t, g.held[h], {})
    {
      IdleStaysIdle(g, s, t, g.held[h], {});
    }
  }

  lemma QuietTogether(g: Graph, s: Snapshot, a: set<AgentRunRegistry>, b: set<AgentRunRegistry>, c: set<AgentRunRegistry>)
    requires QuietAll(g, s, a, b) && QuietAll(g, s, b, c)
    ensures QuietAll(g, s, a, c)
  {
  }

  lemma EachOnceTogether(a: set<AgentRunRegistry>, b: set<AgentRunRegistry>, c: set<AgentRunRegistry>,
                         first: seq<AgentRunRegistry>, more: seq<AgentRunRegistry>)
    requires a <= b <= c && EachOnce(first, a, b) && EachOnce(more, b, c)
    ensures EachOnce(first + more, a, c)
  {
    var all := first + more;
    assert forall h | h in all :: h in first || h in more;
    assert forall h | h in first || h in more :: h in all;
    forall i, j | 0 <= i < j < |all|
      ensures all[i] != all[j]
    {
      if i < |first| <= j {
        assert first[i] in first && more[j - |first|] in more;
      }
    }
  }

  /** What a walk has achieved when it has gone from before to seen; open is the level it is in. */
  ghost predicate WalkState(g: Graph, s: Snapshot, t: Snapshot, before: set<AgentRunRegistry>, seen: set<AgentRunRegistry>,
                            open: set<AgentRunRegistry>, order: seq<AgentRunRegistry>)
  {
    && SlotsLive(t) && Walked(g, s, t)
    && before <= seen <= g.held.Keys
    && Explored(g, before, seen, open)
    && QuietAll(g, t, before, seen)
    && EachOnce(order, before, seen)
  }

  lemma WalkNothing(g: Graph, s: Snapshot, before: set<AgentRunRegistry>)
    requires SlotsLive(s) && before <= g.held.Keys
    ensures WalkState(g, s, s, before, before, {}, [])
  {
  }

  lemma BeginLevel(g: Graph, s: Snapshot, t: Snapshot, before: set<AgentRunRegistry>, r: AgentRunRegistry)
    requires before <= g.held.Keys && r in g.held && r !in before
    requires SlotsLive(t) && Walked(g, s, t) && Idle(t, g.held[r], {})
    ensures WalkState(g, s, t, before, before + {r}, {r}, [r])
  {
  }

  lemma AfterChild(g: Graph, s: Snapshot, t: Snapshot, u: Snapshot,
                   before: set<AgentRunRegistry>, mid: set<AgentRunRegistry>, seen: set<AgentRunRegistry>,
                   open: set<AgentRunRegistry>, order: seq<AgentRunRegistry>, more: seq<AgentRunRegistry>)
    requires WalkState(g, s, t, before, mid, open, order)
    requires WalkState(g, t, u, mid, seen, {}, more)
    ensures WalkState(g, s, u, before, seen, open, order + more)
  {
    WalkedTwice(g, s, t, u);
    QuietStaysQuiet(g, t, u, before, mid);
    QuietTogether(g, u, before, mid, seen);
    EachOnceTogether(before, mid, seen, order, more);
  }

  lemma DescendedOne(g: Graph, runs: set<AgentRun>, todo: set<AgentRun>,
                     mid: set<AgentRunRegistry>, seen: set<AgentRunRegistry>, run: AgentRun)
    requires Descended(g, runs, todo, mid) && mid <= seen
    requires run in g.subs && g.subs[run] != null && g.subs[run] in g.owned && g.owned[g.subs[run]] != null ==> g.owned[g.subs[run]] in seen
    ensures Descended(g, runs, todo - {run}, seen)
  {
  }

  lemma EndLevel(g: Graph, s: Snapshot, t: Snapshot, before: set<AgentRunRegistry>, seen: set<AgentRunRegistry>,
                 r: AgentRunRegistry, order: seq<AgentRunRegistry>)
    requires r in g.held && WalkState(g, s, t, before, seen, {r}, order) && Descended(g, g.held[r], {}, seen)
    ensures WalkState(g, s, t, before, seen, {}, order)
  {
  }

  /** A level and everything below it. */
  lemma LevelDone(g: Graph, s: Snapshot, t: Snapshot, u: Snapshot,
                  before: set<AgentRunRegistry>, seen: set<AgentRunRegistry>, r: AgentRunRegistry, more: seq<AgentRunRegistry>)
    requires before <= g.held.Keys && r in g.held && r !in before
    requires SlotsLive(t) && Walked(g, s, t) && Idle(t, g.held[r], {})
    requires WalkState(g, t, u, before + {r}, seen, {}, more) && Descended(g, g.held[r], {}, seen)
    ensures WalkState(g, s, u, before, seen, {}, [r] + more) && r in seen
  {
    BeginLevel(g, s, t, before, r);
    AfterChild(g, s, t, u, before, before + {r}, seen, {r}, [r], more);
    EndLevel(g, s, u, before, seen, r, [r] + more);
  }

  lemma SmallerWorld(regs: set<AgentRunRegistry>, before: set<AgentRunRegistry>, seen: set<AgentRunRegistry>, r: AgentRunRegistry)
    requires before + {r} <= seen && r in regs && r !in before
    ensures |regs - seen| < |regs - before|
  {
    assert regs - seen <= regs - before - {r};
    SubsetCount(regs - seen, regs - before - {r});
  }

  class AgentRunRegistry {
    var runs: map<string, AgentRun>

    constructor ()
      ensures runs == map[]
    {
      runs := map[];
    }

    /** forceReleaseSlot: the agent's slot, if it stores one, goes back to the pool. */
    method GiveSlotBack(a: Agent, ghost w: World, pool: L.ConcurrencyLimiter)
      requires SlotsLive(Snap(w)) && a in w.agents && pool == w.pool
      modifies a`slotRelease, pool
      ensures Snap(w) == GiveBack(old(Snap(w)), a) && Links(w) == old(Links(w))
    {
      ghost var before := Snap(w);
      if a.slotRelease.Some? {
        assert before.slots[a] == a.slotRelease;
        a.ReleaseOwnSlot(pool);
        assert pool.calls == before.calls[before.slots[a].value := L.Released];
        assert SlotViews(w) == before.slots[a := None];
      }
    }

    /** run.Cancel, if the run has one. */
    method CallCancel(run: AgentRun, ghost w: World)
      requires Closed(Links(w)) && run in w.runs
      modifies w.agents`stopped
      ensures StopViews(w) == if run.cancel != null then old(StopViews(w))[run.cancel := true] else old(StopViews(w))
      ensures Links(w) == old(Links(w)) && RunViews(w) == old(RunViews(w)) && SlotViews(w) == old(SlotViews(w))
    {
      if run.cancel != null {
        assert Links(w).cancels[run] == run.cancel;
        run.cancel.Cancel();
        assert StopViews(w) == old(StopViews(w))[run.cancel := true];
      }
    }

    method MarkOnly(run: AgentRun, ghost w: World)
      requires run in w.runs
      modifies run`status, run`err, run`onceFired, run`closed
      ensures RunViews(w) == old(RunViews(w))[run := Do(old(run.View()), TryCancel)]
      ensures Links(w) == old(Links(w)) && StopViews(w) == old(StopViews(w)) && SlotViews(w) == old(SlotViews(w))
    {
      run.TryFinishCancelled();
      assert forall r | r in w.runs && r != run :: r.View() == old(r.View());
    }

    /** Stop the agent of an active run and mark the run. */
    method MarkRun(run: AgentRun, ghost w: World)
      requires Closed(Links(w)) && run in w.runs && IsActive(run.status)
      modifies run`status, run`err, run`onceFired, run`closed, w.agents`stopped
      ensures Snap(w) == MarkCancelled(Links(w), old(Snap(w)), run) && Links(w) == old(Links(w))
    {
      assert Links(w).cancels[run] == run.cancel && RunViews(w)[run] == run.View();
      CallCancel(run, w);
      MarkOnly(run, w);
    }

    /** One run of the walk: if active, stop its agent, mark it, give its slot back. */
    method CancelRun(run: AgentRun, ghost w: World, pool: L.ConcurrencyLimiter)
      requires Closed(Links(w)) && SlotsLive(Snap(w)) && run in w.runs && pool == w.pool
      modifies run`status, run`err, run`onceFired, run`closed
      modifies w.agents`slotRelease, w.agents`stopped, pool
      ensures Snap(w) == CancelOne(Links(w), old(Snap(w)), run) && Links(w) == old(Links(w))
    {
      assert Snap(w).runs[run] == run.View() && Links(w).subs[run] == run.sub;
      if !IsActive(run.status) {
        return;
      }
      MarkRun(run, w);
      if run.sub != null {
        GiveSlotBack(run.sub, w, pool);
      }
    }

    /** The first loop of cancelAll: every run of this registry. */
    method CancelLevel(ghost w: World, pool: L.ConcurrencyLimiter) returns (snapshot: set<AgentRun>)
      requires Closed(Links(w)) && SlotsLive(Snap(w)) && this in w.regs && pool == w.pool
      modifies w.runs`status, w.runs`err, w.runs`onceFired, w.runs`closed
      modifies w.agents`slotRelease, w.agents`stopped, pool
      ensures Links(w) == old(Links(w)) && snapshot == Links(w).held[this]
      ensures SlotsLive(Snap(w)) && Walked(Links(w), old(Snap(w)), Snap(w)) && Idle(Snap(w), snapshot, {})
    {
      snapshot := runs.Values;
      var todo := snapshot;
      ghost var start := Snap(w);
      ghost var g := Links(w);
      while todo != {}
        invariant todo <= snapshot == g.held[this] && Links(w) == g && Fits(g, Snap(w))
        invariant SlotsLive(Snap(w)) && Walked(g, start, Snap(w)) && Idle(Snap(w), snapshot, todo)
        decreases todo
      {
        var run :| run in todo;
        ghost var mid := Snap(w);
        CancelRun(run, w, pool);
        LevelStep(g, start, mid, run, snapshot, todo);
        todo := todo - {run};
      }
    }

    /** cancelAll: this level, then every child registry not visited yet. */
    static method CancelFrom(r: AgentRunRegistry?, visited: set<AgentRunRegistry>, ghost w: World, pool: L.ConcurrencyLimiter)
      returns (now: set<AgentRunRegistry>, ghost order: seq<AgentRunRegistry>)
      requires Closed(Links(w)) && SlotsLive(Snap(w)) && pool == w.pool
      requires visited <= w.regs && (r != null ==> r in w.regs)
      modifies w.runs`status, w.runs`err, w.runs`onceFired, w.runs`closed
      modifies w.agents`slotRelease, w.agents`stopped, pool
      ensures Links(w) == old(Links(w))
      ensures WalkState(Links(w), old(Snap(w)), Snap(w), visited, now, {}, order)
      ensures r != null ==> r in now
      decreases |w.regs - visited|, 0
    {
      ghost var start := Snap(w);
      ghost var g := Links(w);
      if r == null || r in visited {
        WalkNothing(g, start, visited);
        return visited, [];
      }
      var here: AgentRunRegistry := r;
      var level := visited + {here};
      var snapshot := here.CancelLevel(w, pool);
      ghost var mid := Snap(w);
      SmallerWorld(w.regs, visited, level, here);
      ghost var more;
      now, more := CancelChildren(snapshot, level, w, pool);
      order := [here] + more;
      LevelDone(g, start, mid, Snap(w), visited, now, here, more);
    }

    /** The second loop of cancelAll: the registries of these runs' agents. */
    static method CancelChildren(snapshot: set<AgentRun>, visited: set<AgentRunRegistry>, ghost w: World, pool: L.ConcurrencyLimiter)
      returns (now: set<AgentRunRegistry>, ghost order: seq<AgentRunRegistry>)
      requires Closed(Links(w)) && SlotsLive(Snap(w)) && pool == w.pool
      requires visited <= w.regs && snapshot <= w.runs
      modifies w.runs`status, w.runs`err, w.runs`onceFired, w.runs`closed
      modifies w.agents`slotRelease, w.agents`stopped, pool
      ensures Links(w) == old(Links(w))
      ensures WalkState(Links(w), old(Snap(w)), Snap(w), visited, now, {}, order)
      ensures Descended(Links(w), snapshot, {}, now)
      decreases |w.regs - visited|, 2
    {
      ghost var g := Links(w);
      ghost var start := Snap(w);
      now, order := visited, [];
      WalkNothing(g, start, visited);
      var todo := snapshot;
      while todo != {}
        invariant todo <= snapshot && Links(w) == g
        invariant WalkState(g, start, Snap(w), visited, now, {}, order)
        invariant Descended(g, snapshot, todo, now)
        decreases todo
      {
        var run :| run in todo;
        ghost var mid, before := Snap(w), now;
        SubsetCount(w.regs - now, w.regs - visited);
        ghost var more;
        now, more := CancelChild(run, now, w, pool);
        AfterChild(g, start, mid, Snap(w), visited, before, now, {}, order, more);
        order := order + more;
        DescendedOne(g, snapshot, todo, before, now, run);
        todo := todo - {run};
      }
    }

    /** The second loop's body: the registry of one run's agent, if there is one. */
    static method CancelChild(run: AgentRun, visited: set<AgentRunRegistry>, ghost w: World, pool: L.ConcurrencyLimiter)
      returns (now: set<AgentRunRegistry>, ghost order: seq<AgentRunRegistry>)
      requires Closed(Links(w)) && SlotsLive(Snap(w)) && pool == w.pool
      requires visited <= w.regs && run in w.runs
      modifies w.runs`status, w.runs`err, w.runs`onceFired, w.runs`closed
      modifies w.agents`slotRelease, w.agents`stopped, pool
      ensures Links(w) == old(Links(w))
      ensures WalkState(Links(w), old(Snap(w)), Snap(w), visited, now, {}, order)
      ensures var g := Links(w);
              g.subs[run] != null && g.owned[g.subs[run]] != null ==> g.owned[g.subs[run]] in now
      decreases |w.regs - visited|, 1
    {
      assert Links(w).subs[run] == run.sub;
      if run.sub == null {
        WalkNothing(Links(w), Snap(w), visited);
        return visited, [];
      }
      assert Links(w).owned[run.sub] == run.sub.runs;
      now, order := CancelFrom(run.sub.runs, visited, w, pool);
    }

    /**
      CancelAll. It ends on any finite graph, visits each registry once, and leaves
      no run of a reachable registry running or queued; the only changes are
      active runs becoming cancelled, with their agents stopped and slotless.
    */
    method CancelAll(ghost w: World, pool: L.ConcurrencyLimiter) returns (ghost order: seq<AgentRunRegistry>)
      requires Closed(Links(w)) && SlotsLive(Snap(w)) && this in w.regs && pool == w.pool
      modifies w.runs`status, w.runs`err, w.runs`onceFired, w.runs`closed
      modifies w.agents`slotRelease, w.agents`stopped, pool
      ensures Links(w) == old(Links(w)) && Walked(Links(w), old(Snap(w)), Snap(w))
      ensures forall p | Path(Links(w), p) && p[0] == this ::
                p[|p| - 1] in order && (p[|p| - 1] in w.regs ==> Idle(Snap(w), Links(w).held[p[|p| - 1]], {}))
      ensures forall i, j | 0 <= i < j < |order| :: order[i] != order[j]
    {
      var seen;
      seen, order := CancelFrom(this, {}, w, pool);
      ghost var g := Links(w);
      forall p | Path(g, p) && p[0] == this
        ensures p[|p| - 1] in seen
      {
        ClosedSetHoldsPaths(g, seen, p);
      }
    }

    /** CancelOwned: only the dispatcher that started the run may cancel it. */
    method CancelOwned(taskID: string, dispatcher: string, ghost w: World, pool: L.ConcurrencyLimiter)
      returns (res: Result<(), string>)
      requires Closed(Links(w)) && SlotsLive(Snap(w)) && this in w.regs && pool == w.pool
      modifies w.runs`status, w.runs`err, w.runs`onceFired, w.runs`closed
      modifies w.agents`slotRelease, w.agents`stopped, pool
      ensures res.Ok? <==> taskID in runs && runs[taskID].dispatcher == dispatcher
      ensures res.Err? ==> Snap(w) == old(Snap(w))
      ensures res.Ok? ==>
                && runs[taskID] in old(Snap(w)).runs && runs[taskID] in Links(w).subs && runs[taskID] in Links(w).cancels
                && Snap(w) == CancelOne(Links(w), old(Snap(w)), runs[taskID])
    {
      if taskID !in runs {
        return Err("unknown task: " + taskID);
      }
      var run := runs[taskID];
      if run.dispatcher != dispatcher {
        return Err("task " + taskID + " is not owned by " + dispatcher);
      }
      assert run in runs.Values && runs.Values == Links(w).held[this];
      CancelRun(run, w, pool);
      return Ok(());
    }
  }
}

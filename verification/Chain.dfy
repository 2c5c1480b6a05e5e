/**
  Nested synchronous dispatch under a small limit. Agents 0 (the main agent, which
  holds no slot) to n form a linear chain: each dispatches the next one and waits
  for it. An agent about to wait gives its slot back, and takes one again only
  after its child's slot has been released, so even a limit of one never blocks
  the chain against itself.
*/
module NestedChain {
  import L = LimiterProtocol
  import opened SlotProtocol

  /** Where the chain's one thread of control is. */
  datatype Control = Control(
    depth: nat,   // the deepest live agent
    busy: bool,   // it is inside a nested call
    down: bool)   // the leaf has not finished yet

  /** Where the chain's one slot is. */
  datatype Place =
    | Nowhere
    | InFlight(call: Token, admitted: bool)
    | Stored(call: Token)
    | Returning(call: Token)

  predicate IsWaiting(pc: Control, j: AgentId) {
    j < pc.depth || (j == pc.depth && pc.busy)
  }

  /** Each agent above the control waits for its one child; nobody else waits. */
  ghost predicate Waiting(nested: map<AgentId, nat>, pc: Control) {
    && (forall j: AgentId | j <= pc.depth :: j in nested)
    && (forall j: AgentId | j in nested :: nested[j] == if IsWaiting(pc, j) then 1 else 0)
  }

  /** What the live agents hold and wait for. */
  ghost predicate Layout(s: Slots, pc: Control, place: Place) {
    && Waiting(s.nested, pc)
    && (forall j: AgentId :: j in s.pending <==> 0 < j < pc.depth + (if pc.busy then 1 else 0))
    && s.slot == (if place.Stored? then map[pc.depth := place.call] else map[])
    && s.taken == (if place.Returning? then {place.call} else {})
    && s.flight == (if place.InFlight? then map[place.call := Acquire(pc.depth, !pc.down)] else map[])
    && s.lost == {}
  }

  /** A limit of at least one, nobody cancelled, and the pending acquire where place says. */
  ghost predicate Calm(lim: L.Limiter, place: Place) {
    && lim.max >= 1
    && lim.cancelled == {}
    && (place.InFlight? ==> InPhase(lim.calls, place.call, if place.admitted then L.Holding else L.Entered))
    && (place.Returning? ==> InPhase(lim.calls, place.call, L.Holding))
  }

  ghost predicate At(s: Slots, pc: Control, place: Place) {
    Inv(s) && Calm(s.lim, place) && Layout(s, pc, place)
  }

  /** The combinations the dispatch code goes through, for a chain with leaf n. */
  predicate Legal(n: nat, pc: Control, place: Place) {
    && pc.depth <= n
    && (pc.busy ==> pc.depth < n && (place.Nowhere? || place.Returning?))
    && (!pc.busy && pc.depth == 0 ==> place.Nowhere?)
    && (!pc.busy && pc.depth > 0 ==> place.Stored? || place.InFlight?)
    && (!pc.down ==> pc.depth < n)
  }

  predicate Done(n: nat, pc: Control) {
    !pc.busy && pc.depth == 0 && (n == 0 || !pc.down)
  }

  /** What the code does next; c is the limiter call to make if it makes one. */
  function Next(n: nat, pc: Control, place: Place, c: Token): Event {
    match place
    case Returning(held) => Return(held)
    case InFlight(held, admitted) => if admitted then Store(held) else Attempt(held)
    case Stored(_) => if pc.down && pc.depth < n then Pause(pc.depth) else Finish(pc.depth)
    case Nowhere =>
      if !pc.busy then Pause(pc.depth)
      else if pc.down then Dispatch(pc.depth + 1, c)
      else Resume(pc.depth, c)
  }

  function NextControl(n: nat, pc: Control, place: Place): Control {
    match place
    case Returning(_) => pc
    case InFlight(_, _) => pc
    case Stored(_) =>
      if pc.down && pc.depth < n then pc.(busy := true)
      else Control(if pc.depth > 0 then pc.depth - 1 else 0, true, false)
    case Nowhere =>
      if !pc.busy then pc.(busy := true)
      else if pc.down then Control(pc.depth + 1, false, true)
      else pc.(busy := false)
  }

  function NextPlace(n: nat, pc: Control, place: Place, c: Token): Place {
    match place
    case Returning(_) => Nowhere
    case InFlight(held, admitted) => if admitted then Stored(held) else InFlight(held, true)
    case Stored(held) => Returning(held)
    case Nowhere =>
      if !pc.busy || (!pc.down && pc.depth == 0) then Nowhere else InFlight(c, false)
  }

  function Rank(n: nat, pc: Control, place: Place): int {
    7 * (if pc.down then 2 * n - pc.depth else pc.depth) + Left(pc, place)
  }

  /** Steps left at the current depth. */
  function Left(pc: Control, place: Place): int {
    match place
    case InFlight(_, admitted) => if pc.down then (if admitted then 5 else 6) else if admitted then 3 else 4
    case Stored(_) => if pc.down then 4 else 2
    case Returning(_) => if pc.down then 2 else 6
    case Nowhere => if pc.busy then (if pc.down then 1 else 5) else if pc.down then 3 else 0
  }

  /** The chain never holds more than one slot. */
  lemma AtMostOneSlot(s: Slots, pc: Control, place: Place)
    requires At(s, pc, place)
    ensures s.lim.holders <= 1
    ensures place.Nowhere? || (place.InFlight? && !place.admitted) ==> s.lim.holders == 0
  {
    var waiting := Unstored(s.lim.calls, s.flight);
    if place.InFlight? {
      assert waiting == if place.admitted then {place.call} else {};
    } else {
      assert waiting == {};
    }
  }

  lemma PauseLayout(s: Slots, pc: Control, place: Place)
    requires Layout(s, pc, place) && !pc.busy
    requires if pc.depth > 0 then place.Stored? else place.Nowhere?
    ensures Enabled(s, Pause(pc.depth))
    ensures Layout(Apply(s, Pause(pc.depth)), pc.(busy := true), if place.Stored? then Returning(place.call) else Nowhere)
  {
  }

  lemma ReturnLayout(s: Slots, pc: Control, c: Token)
    requires Layout(s, pc, Returning(c)) && InPhase(s.lim.calls, c, L.Holding)
    ensures Enabled(s, Return(c))
    ensures Layout(Apply(s, Return(c)), pc, Nowhere)
  {
  }

  lemma DispatchLayout(s: Slots, pc: Control, c: Token)
    requires Layout(s, pc, Nowhere) && pc.busy && c !in s.lim.calls
    ensures Enabled(s, Dispatch(pc.depth + 1, c)) && !TooEarly(s, Dispatch(pc.depth + 1, c))
    ensures Layout(Apply(s, Dispatch(pc.depth + 1, c)), Control(pc.depth + 1, false, true), InFlight(c, false))
  {
  }

  lemma AttemptLayout(s: Slots, pc: Control, c: Token)
    requires Layout(s, pc, InFlight(c, false)) && InPhase(s.lim.calls, c, L.Entered)
    ensures Enabled(s, Attempt(c))
    ensures Layout(Apply(s, Attempt(c)), pc, InFlight(c, true))
  {
  }

  lemma StoreLayout(s: Slots, pc: Control, c: Token)
    requires Layout(s, pc, InFlight(c, true)) && InPhase(s.lim.calls, c, L.Holding)
    ensures Enabled(s, Store(c))
    ensures Layout(Apply(s, Store(c)), pc, Stored(c))
  {
  }

  lemma FinishLayout(s: Slots, pc: Control, c: Token)
    requires Layout(s, pc, Stored(c)) && !pc.busy && pc.depth > 0
    ensures Enabled(s, Finish(pc.depth))
    ensures Layout(Apply(s, Finish(pc.depth)), Control(pc.depth - 1, true, false), Returning(c))
  {
  }

  lemma ResumeLayout(s: Slots, pc: Control, c: Token)
    requires Layout(s, pc, Nowhere) && pc.busy && !pc.down && c !in s.lim.calls
    ensures Enabled(s, Resume(pc.depth, c))
    ensures Layout(Apply(s, Resume(pc.depth, c)), pc.(busy := false), if pc.depth == 0 then Nowhere else InFlight(c, false))
  {
  }

  lemma NextLayout(n: nat, s: Slots, pc: Control, place: Place, c: Token)
    requires Layout(s, pc, place) && Calm(s.lim, place) && Legal(n, pc, place) && !Done(n, pc)
    requires c !in s.lim.calls && (place.Stored? ==> InPhase(s.lim.calls, place.call, L.Holding))
    ensures Enabled(s, Next(n, pc, place, c)) && !TooEarly(s, Next(n, pc, place, c))
    ensures Layout(Apply(s, Next(n, pc, place, c)), NextControl(n, pc, place), NextPlace(n, pc, place, c))
  {
    match place
    case Returning(held) => ReturnLayout(s, pc, held);
    case InFlight(held, admitted) =>
      if admitted {
        StoreLayout(s, pc, held);
      } else {
        AttemptLayout(s, pc, held);
      }
    case Stored(held) =>
      if pc.down && pc.depth < n {
        PauseLayout(s, pc, place);
      } else {
        FinishLayout(s, pc, held);
      }
    case Nowhere =>
      if !pc.busy {
        PauseLayout(s, pc, place);
      } else if pc.down {
        DispatchLayout(s, pc, c);
      } else {
        ResumeLayout(s, pc, c);
      }
  }

  lemma NextCalm(n: nat, s: Slots, pc: Control, place: Place, c: Token)
    requires At(s, pc, place) && Legal(n, pc, place) && !Done(n, pc)
    requires c !in s.lim.calls && Enabled(s, Next(n, pc, place, c))
    ensures Calm(Apply(s, Next(n, pc, place, c)).lim, NextPlace(n, pc, place, c))
  {
    AtMostOneSlot(s, pc, place);
  }

  lemma NextCounts(n: nat, pc: Control, place: Place, c: Token)
    requires Legal(n, pc, place) && !Done(n, pc)
    ensures Legal(n, NextControl(n, pc, place), NextPlace(n, pc, place, c))
    ensures 0 <= Rank(n, NextControl(n, pc, place), NextPlace(n, pc, place, c)) < Rank(n, pc, place)
  {
  }

  /** The next step of the code is always enabled, whatever fresh call it makes. */
  lemma NeverBlocked(n: nat, s: Slots, pc: Control, place: Place, c: Token)
    requires At(s, pc, place) && Legal(n, pc, place) && !Done(n, pc)
    requires c !in s.lim.calls
    ensures Enabled(s, Next(n, pc, place, c)) && !TooEarly(s, Next(n, pc, place, c))
    ensures At(Apply(s, Next(n, pc, place, c)), NextControl(n, pc, place), NextPlace(n, pc, place, c))
    ensures Legal(n, NextControl(n, pc, place), NextPlace(n, pc, place, c))
    ensures 0 <= Rank(n, NextControl(n, pc, place), NextPlace(n, pc, place, c)) < Rank(n, pc, place)
    ensures s.lim.holders <= 1
  {
    AtMostOneSlot(s, pc, place);
    NextLayout(n, s, pc, place, c);
    NextCalm(n, s, pc, place, c);
    NextCounts(n, pc, place, c);
    StepKeepsInv(s, Next(n, pc, place, c));
  }

  // ----- Whole runs

  /** A run of enabled steps that never has more than k slots out. */
  ghost predicate RunWithin(s: Slots, es: seq<Event>, k: nat)
    decreases |es|
  {
    s.lim.holders <= k && (es == [] || (Enabled(s, es[0]) && RunWithin(Apply(s, es[0]), es[1..], k)))
  }

  lemma FreshCallExists(calls: set<Token>) returns (c: Token)
    ensures c !in calls && forall d | d in calls :: d < c
  {
    if calls == {} {
      c := 0;
    } else {
      var d :| d in calls;
      var e := FreshCallExists(calls - {d});
      assert forall x | x in calls :: x == d || x in calls - {d};
      c := if d < e then e else d + 1;
    }
  }

  lemma {:induction false} RunsToTheEnd(n: nat, s: Slots, pc: Control, place: Place) returns (es: seq<Event>, at: Control)
    requires At(s, pc, place) && Legal(n, pc, place)
    ensures RunWithin(s, es, 1) && Run(s, es) && NeverTooEarly(s, es)
    ensures Done(n, at) && At(Final(s, es), at, Nowhere)
    ensures pc.down && pc.depth < n ==> exists c :: Dispatch(n, c) in es
    decreases Rank(n, pc, place)
  {
    AtMostOneSlot(s, pc, place);
    if Done(n, pc) {
      es, at := [], pc;
    } else {
      var c := FreshCallExists(s.lim.calls.Keys);
      NeverBlocked(n, s, pc, place, c);
      var e := Next(n, pc, place, c);
      var rest;
      rest, at := RunsToTheEnd(n, Apply(s, e), NextControl(n, pc, place), NextPlace(n, pc, place, c));
      es := [e] + rest;
      assert es[1..] == rest;
      if pc.down && pc.depth < n {
        if NextControl(n, pc, place).depth == n {
          assert e == Dispatch(n, c);
          assert Dispatch(n, c) in es;
        } else {
          var d :| Dispatch(n, d) in rest;
          assert Dispatch(n, d) in es;
        }
      }
    }
  }

  lemma StartLayout(s: Slots)
    requires s.nested == map[] && s.slot == map[] && s.pending == {} && s.flight == map[] && s.taken == {} && s.lost == {}
    ensures Layout(Apply(s, StartRoot(0)), Control(0, false, true), Nowhere)
  {
  }

  lemma StartsAtRoot(max: int)
    requires max >= 1
    ensures At(Apply(Apply(Fresh, Resize(max)), StartRoot(0)), Control(0, false, true), Nowhere)
  {
    FreshInv();
    var resized := Apply(Fresh, Resize(max));
    StepKeepsInv(Fresh, Resize(max));
    StepKeepsInv(resized, StartRoot(0));
    StartLayout(resized);
  }

  /**
    A chain of any length, under any limit of at least one, runs down to its leaf
    and back to the main agent without ever holding two slots, and ends with every
    slot returned.
  */
  lemma ChainCompletes(n: nat, max: int) returns (start: Slots, es: seq<Event>)
    requires max >= 1
    ensures start == Apply(Apply(Fresh, Resize(max)), StartRoot(0))
    ensures RunWithin(start, es, 1) && Run(start, es) && NeverTooEarly(start, es)
    ensures n > 0 ==> exists c :: Dispatch(n, c) in es
    ensures var t := Final(start, es);
            && t.lim.holders == 0 && t.slot == map[] && t.taken == {} && t.pending == {} && t.flight == map[] && t.lost == {}
            && forall a :: Waits(t.nested, a) == 0
  {
    start := Apply(Apply(Fresh, Resize(max)), StartRoot(0));
    StartsAtRoot(max);
    var at;
    es, at := RunsToTheEnd(n, start, Control(0, false, true), Nowhere);
    AtMostOneSlot(Final(start, es), at, Nowhere);
  }
}

/**
  The relay between tool calls and Excel task panes (excel-addin/bridge/hub.go).

  One mutex guards the pane and call tables; everything else happens between the
  locked sections, so each section, each channel operation and each close is its
  own step and all threads interleave. A call's result channel has room for one
  result. A pane is one page load, named by the Attach that registered it.
*/
module HubProtocol {
  import opened Wrappers

  type PaneId = nat
  type CallId = nat

  datatype Pane = Pane(workbook: string, instance: string)

  /** A posted result. An id the pane makes up is carried as it is. */
  datatype Result = Result(id: CallId, ok: bool, content: string, error: string)

  /** A result on its way to a call: from whom, and what. */
  datatype Parcel =
    | Posted(workbook: string, result: Result)  // by Deliver
    | PaneGone                                  // by failPane

  datatype CallPhase =
    | Resolved(pane: PaneId)        // resolve picked a pane; not registered yet
    | Sending(pane: PaneId)         // registered; offering the event to the pane
    | Waiting(pane: PaneId)         // event sent; waiting for a result
    | Dropping(pane: PaneId)        // timed out, cancelled or pane gone: about to drop
    | Rejected                      // too many calls in flight
    | GaveUp(pane: PaneId)          // returned an error
    | Answered(pane: PaneId, parcel: Parcel)

  datatype Hub = Hub(
    maxInFlight: nat,
    panes: map<string, PaneId>,           // registered panes by workbook
    calls: map<CallId, PaneId>,           // pending calls and their panes
    info: map<PaneId, Pane>,              // every pane ever attached
    displacedBy: map<PaneId, PaneId>,     // who took the workbook over
    failed: set<PaneId>,                  // panes whose failPane section has run
    finished: map<PaneId, bool>,          // closed panes; true if the eviction reason was delivered
    threads: map<CallId, CallPhase>,
    duties: map<CallId, Parcel>,          // taken out of calls; the send has not run
    buffers: map<CallId, Parcel>,         // a result sitting in the channel
    sent: set<CallId>,                    // channels that have been sent to
    late: set<CallId>)                    // registered on a pane whose failPane had run

  datatype Event =
    | Attach(pane: PaneId, workbook: string, instance: string)
    | Unregister(pane: PaneId)                  // detach's first section
    | FailPane(pane: PaneId)                    // failPane's section, by detach or by a newer Attach
    | FinishEvicted(pane: PaneId)               // finish, by the Attach that displaced it
    | FinishDetached(pane: PaneId)              // finish, by its own detach
    | Resolve(call: CallId, pane: PaneId)
    | Register(call: CallId)
    | SendEvent(call: CallId)
    | SeePaneGone(call: CallId)
    | Abort(call: CallId)                       // its timer or its context fires
    | Drop(call: CallId)
    | Deliver(workbook: string, result: Result) // Deliver's section
    | SendResult(call: CallId)
    | Receive(call: CallId)

  // ----- The two tables, as the locked sections see them

  /** The ids of the calls pending on p. */
  function OnPane(calls: map<CallId, PaneId>, p: PaneId): set<CallId> {
    set c | c in calls && calls[c] == p
  }

  function WithoutPane(calls: map<CallId, PaneId>, p: PaneId): map<CallId, PaneId> {
    map c | c in calls && calls[c] != p :: calls[c]
  }

  /** detach removes the registration only if it is still this pane's. */
  function Detached(panes: map<string, PaneId>, workbook: string, p: PaneId): map<string, PaneId> {
    if workbook in panes && panes[workbook] == p then panes - {workbook} else panes
  }

  /** Deliver takes a call only for a result posted under its pane's workbook. */
  predicate Takes(calls: map<CallId, PaneId>, info: map<PaneId, Pane>, workbook: string, id: CallId) {
    id in calls && calls[id] in info && info[calls[id]].workbook == workbook
  }

  /** resolve: the named workbook's pane, or the only one when none is named. */
  predicate Resolves(panes: map<string, PaneId>, workbook: string, p: PaneId) {
    if workbook != "" then workbook in panes && panes[workbook] == p
    else panes.Values == {p} && |panes| == 1
  }

  predicate EndsPane(h: Hub, p: PaneId) {
    p in h.info && (p in h.displacedBy || !(h.info[p].workbook in h.panes && h.panes[h.info[p].workbook] == p))
  }

  predicate Enabled(h: Hub, e: Event) {
    match e
    case Attach(p, _, _) => p !in h.info
    case Unregister(p) => p in h.info
    case FailPane(p) => EndsPane(h, p)
    case FinishEvicted(p) => p in h.displacedBy && p in h.failed
    case FinishDetached(p) => EndsPane(h, p) && p in h.failed
    case Resolve(c, p) => c !in h.threads && p in h.panes.Values
    case Register(c) => c in h.threads && h.threads[c].Resolved?
    case SendEvent(c) => c in h.threads && h.threads[c].Sending?
    case SeePaneGone(c) => c in h.threads && h.threads[c].Sending? && h.threads[c].pane in h.finished
    case Abort(c) => c in h.threads && (h.threads[c].Sending? || h.threads[c].Waiting?)
    case Drop(c) => c in h.threads && h.threads[c].Dropping?
    case Deliver(_, _) => true
    case SendResult(c) => c in h.duties
    case Receive(c) => c in h.threads && h.threads[c].Waiting? && c in h.buffers
  }

  /** finish under its once: the first caller decides whether the reason is delivered. */
  function Finish(h: Hub, p: PaneId, reason: bool): Hub {
    if p in h.finished then h else h.(finished := h.finished[p := reason])
  }

  /** The registering section of Call, once it knows whether the pane is full. */
  function Enroll(h: Hub, c: CallId, p: PaneId, full: bool): Hub {
    if full then
      h.(threads := h.threads[c := Rejected])
    else
      h.(calls := h.calls[c := p], threads := h.threads[c := Sending(p)],
         late := if p in h.failed then h.late + {c} else h.late)
  }

  function Apply(h: Hub, e: Event): Hub
    requires Enabled(h, e)
  {
    match e
    case Attach(p, wb, inst) =>
      h.(panes := h.panes[wb := p],
         info := h.info[p := Pane(wb, inst)],
         displacedBy := if wb in h.panes then h.displacedBy[h.panes[wb] := p] else h.displacedBy)
    case Unregister(p) => h.(panes := Detached(h.panes, h.info[p].workbook, p))
    case FailPane(p) =>
      h.(calls := WithoutPane(h.calls, p),
         duties := h.duties + (map c | c in OnPane(h.calls, p) :: PaneGone),
         failed := h.failed + {p})
    case FinishEvicted(p) =>
      Finish(h, p, p in h.info && h.displacedBy[p] in h.info && h.info[p].instance != h.info[h.displacedBy[p]].instance)
    case FinishDetached(p) => Finish(h, p, false)
    case Resolve(c, p) => h.(threads := h.threads[c := Resolved(p)])
    case Register(c) =>
      Enroll(h, c, h.threads[c].pane, |OnPane(h.calls, h.threads[c].pane)| >= h.maxInFlight)
    case SendEvent(c) => h.(threads := h.threads[c := Waiting(h.threads[c].pane)])
    case SeePaneGone(c) => h.(threads := h.threads[c := Dropping(h.threads[c].pane)])
    case Abort(c) => h.(threads := h.threads[c := Dropping(h.threads[c].pane)])
    case Drop(c) => h.(calls := h.calls - {c}, threads := h.threads[c := GaveUp(h.threads[c].pane)])
    case Deliver(wb, r) =>
      if Takes(h.calls, h.info, wb, r.id) then
        h.(calls := h.calls - {r.id}, duties := h.duties[r.id := Posted(wb, r)])
      else h
    case SendResult(c) =>
      h.(duties := h.duties - {c}, buffers := h.buffers[c := h.duties[c]], sent := h.sent + {c})
    case Receive(c) =>
      h.(buffers := h.buffers - {c}, threads := h.threads[c := Answered(h.threads[c].pane, h.buffers[c])])
  }

  // ----- The invariant, one call, one pane and one workbook at a time

  predicate Open(t: CallPhase) {
    t.Sending? || t.Waiting? || t.Dropping?
  }

  /** What is or was delivered to c was posted for c under its pane's workbook, or says the pane is gone. */
  predicate Proper(info: map<PaneId, Pane>, c: CallId, p: PaneId, parcel: Parcel) {
    parcel.Posted? ==> parcel.result.id == c && p in info && parcel.workbook == info[p].workbook
  }

  /**
    A call is in one place: pending in the table, or owed one result, or sent one.
    An unregistered call is in none, a finished one is not in the table, and an
    unfinished one is never without all three.
  */
  predicate CallOk(h: Hub, c: CallId) {
    var early := c !in h.threads || h.threads[c].Resolved? || h.threads[c].Rejected?;
    && (early ==> c !in h.calls && c !in h.duties && c !in h.sent && c !in h.buffers && c !in h.late)
    && (c in h.threads && !h.threads[c].Rejected? ==> h.threads[c].pane in h.info)
    && (c in h.calls ==>
          && c !in h.duties && c !in h.sent && c in h.threads && Open(h.threads[c])
          && h.threads[c].pane == h.calls[c] && (h.calls[c] in h.failed <==> c in h.late))
    && (c in h.threads && Open(h.threads[c]) ==> c in h.calls || c in h.duties || c in h.buffers)
    && (c in h.duties ==> c !in h.sent && (!early ==> Proper(h.info, c, h.threads[c].pane, h.duties[c])))
    && (c in h.buffers ==> c in h.sent && (!early ==> Proper(h.info, c, h.threads[c].pane, h.buffers[c])))
    && (c in h.threads && h.threads[c].GaveUp? ==> c !in h.calls)
    && (c in h.threads && h.threads[c].Answered? ==>
          c in h.sent && c !in h.buffers && Proper(h.info, c, h.threads[c].pane, h.threads[c].parcel))
  }

  /** A registered pane is the workbook's own and has not been displaced. */
  predicate WorkbookOk(h: Hub, wb: string) {
    wb in h.panes ==>
      && h.panes[wb] in h.info && h.info[h.panes[wb]].workbook == wb
      && h.panes[wb] !in h.displacedBy
  }

  /** A pane is told it was evicted only if a different instance took its workbook. */
  predicate PaneOk(h: Hub, p: PaneId) {
    && (p in h.displacedBy ==>
          && p in h.info && h.displacedBy[p] in h.info
          && h.info[h.displacedBy[p]].workbook == h.info[p].workbook)
    && (p in h.finished && h.finished[p] ==>
          && p in h.displacedBy && p in h.info && h.displacedBy[p] in h.info
          && h.info[h.displacedBy[p]].instance != h.info[p].instance)
  }

  predicate RoomOk(h: Hub, p: PaneId) {
    |OnPane(h.calls, p)| <= h.maxInFlight
  }

  ghost predicate Inv(h: Hub) {
    && (forall c :: CallOk(h, c))
    && (forall wb :: WorkbookOk(h, wb))
    && (forall p :: PaneOk(h, p))
    && (forall p :: RoomOk(h, p))
  }

  function NewHub(max: nat): Hub {
    Hub(max, map[], map[], map[], map[], {}, map[], map[], map[], map[], {}, {})
  }

  lemma NewHubInv(max: nat)
    ensures Inv(NewHub(max))
  {
    forall p
      ensures RoomOk(NewHub(max), p)
    {
      assert OnPane(map[], p) == {};
    }
  }

  /** A registered call moves between the phases of Call, or leaves it. */
  lemma PhaseStep(h: Hub, e: Event, c: CallId)
    requires CallOk(h, c) && Enabled(h, e)
    requires e.SendEvent? || e.SeePaneGone? || e.Abort? || e.Drop?
    ensures CallOk(Apply(h, e), c)
  {
  }

  lemma EnrollStep(h: Hub, call: CallId, full: bool, c: CallId)
    requires CallOk(h, c) && Enabled(h, Register(call))
    ensures CallOk(Enroll(h, call, h.threads[call].pane, full), c)
  {
  }

  lemma ReceiveStep(h: Hub, call: CallId, c: CallId)
    requires CallOk(h, c) && Enabled(h, Receive(call))
    ensures CallOk(Apply(h, Receive(call)), c)
  {
  }

  /** A result for some call moves on. */
  lemma ResultStep(h: Hub, e: Event, c: CallId)
    requires CallOk(h, c) && Enabled(h, e)
    requires e.Deliver? || e.SendResult? || e.FailPane?
    ensures CallOk(Apply(h, e), c)
  {
  }

  lemma CallStep(h: Hub, e: Event, c: CallId)
    requires CallOk(h, c) && Enabled(h, e)
    requires e.Resolve? ==> e.pane in h.info
    ensures CallOk(Apply(h, e), c)
  {
    if e.Register? {
      EnrollStep(h, e.call, |OnPane(h.calls, h.threads[e.call].pane)| >= h.maxInFlight, c);
    } else if e.Receive? {
      ReceiveStep(h, e.call, c);
    } else if e.SendEvent? || e.SeePaneGone? || e.Abort? || e.Drop? {
      PhaseStep(h, e, c);
    } else if e.Deliver? || e.SendResult? || e.FailPane? {
      ResultStep(h, e, c);
    }
  }

  /** Only Attach describes or displaces panes. */
  lemma InfoKept(h: Hub, e: Event)
    requires Enabled(h, e) && !e.Attach?
    ensures Apply(h, e).info == h.info && Apply(h, e).displacedBy == h.displacedBy
  {
    match e
    case Unregister(_) =>
    case FailPane(_) =>
    case FinishEvicted(_) =>
    case FinishDetached(_) =>
    case Resolve(_, _) =>
    case Register(_) =>
    case SendEvent(_) =>
    case SeePaneGone(_) =>
    case Abort(_) =>
    case Drop(_) =>
    case Deliver(_, _) =>
    case SendResult(_) =>
    case Receive(_) =>
  }

  lemma PanesKept(h: Hub, e: Event)
    requires Enabled(h, e) && !e.Attach? && !e.Unregister?
    ensures Apply(h, e).panes == h.panes
  {
    match e
    case FailPane(_) =>
    case FinishEvicted(_) =>
    case FinishDetached(_) =>
    case Resolve(_, _) =>
    case Register(_) =>
    case SendEvent(_) =>
    case SeePaneGone(_) =>
    case Abort(_) =>
    case Drop(_) =>
    case Deliver(_, _) =>
    case SendResult(_) =>
    case Receive(_) =>
  }

  lemma FinishedKept(h: Hub, e: Event)
    requires Enabled(h, e) && !e.FinishEvicted? && !e.FinishDetached?
    ensures Apply(h, e).finished == h.finished
  {
    match e
    case Attach(_, _, _) =>
    case Unregister(_) =>
    case FailPane(_) =>
    case Resolve(_, _) =>
    case Register(_) =>
    case SendEvent(_) =>
    case SeePaneGone(_) =>
    case Abort(_) =>
    case Drop(_) =>
    case Deliver(_, _) =>
    case SendResult(_) =>
    case Receive(_) =>
  }

  lemma AttachWorkbook(h: Hub, e: Event, wb: string)
    requires e.Attach? && WorkbookOk(h, wb) && Enabled(h, e) && WorkbookOk(h, e.workbook) && PaneOk(h, e.pane)
    ensures WorkbookOk(Apply(h, e), wb)
  {
  }

  lemma WorkbookStep(h: Hub, e: Event, wb: string)
    requires WorkbookOk(h, wb) && Enabled(h, e)
    requires e.Attach? ==> WorkbookOk(h, e.workbook) && PaneOk(h, e.pane)
    ensures WorkbookOk(Apply(h, e), wb)
  {
    if e.Attach? {
      AttachWorkbook(h, e, wb);
    } else {
      InfoKept(h, e);
      if !e.Unregister? {
        PanesKept(h, e);
      }
    }
  }

  lemma AttachPane(h: Hub, e: Event, p: PaneId)
    requires e.Attach? && PaneOk(h, p) && Enabled(h, e) && WorkbookOk(h, e.workbook) && PaneOk(h, e.pane)
    ensures PaneOk(Apply(h, e), p)
  {
  }

  lemma FinishPane(h: Hub, e: Event, p: PaneId)
    requires (e.FinishEvicted? || e.FinishDetached?) && PaneOk(h, p) && Enabled(h, e)
    ensures PaneOk(Apply(h, e), p)
  {
  }

  lemma PaneStep(h: Hub, e: Event, p: PaneId)
    requires PaneOk(h, p) && Enabled(h, e)
    requires e.Attach? ==> WorkbookOk(h, e.workbook) && PaneOk(h, e.pane)
    ensures PaneOk(Apply(h, e), p)
  {
    if e.Attach? {
      AttachPane(h, e, p);
    } else if e.FinishEvicted? || e.FinishDetached? {
      FinishPane(h, e, p);
    } else {
      InfoKept(h, e);
      FinishedKept(h, e);
    }
  }

  lemma FewerCalls(calls: map<CallId, PaneId>, fewer: map<CallId, PaneId>, p: PaneId)
    requires forall c | c in fewer :: c in calls && calls[c] == fewer[c]
    ensures |OnPane(fewer, p)| <= |OnPane(calls, p)|
  {
    SubsetCount(OnPane(fewer, p), OnPane(calls, p));
  }

  lemma OneMoreCall(calls: map<CallId, PaneId>, c: CallId, q: PaneId, p: PaneId)
    requires c !in calls
    ensures |OnPane(calls[c := q], p)| == |OnPane(calls, p)| + if p == q then 1 else 0
  {
    assert OnPane(calls[c := q], p) == if p == q then OnPane(calls, p) + {c} else OnPane(calls, p);
  }

  lemma RoomStep(h: Hub, e: Event, p: PaneId)
    requires RoomOk(h, p) && Enabled(h, e)
    requires e.Register? ==> CallOk(h, e.call)
    ensures RoomOk(Apply(h, e), p)
  {
    match e
    case Register(c) => OneMoreCall(h.calls, c, h.threads[c].pane, p);
    case FailPane(q) => FewerCalls(h.calls, WithoutPane(h.calls, q), p);
    case Drop(c) => FewerCalls(h.calls, h.calls - {c}, p);
    case Deliver(_, r) => FewerCalls(h.calls, h.calls - {r.id}, p);
    case _ =>
  }

  lemma StepKeepsInv(h: Hub, e: Event)
    requires Inv(h) && Enabled(h, e)
    ensures Inv(Apply(h, e)) && Apply(h, e).maxInFlight == h.maxInFlight
  {
    var t := Apply(h, e);
    forall c
      ensures CallOk(t, c)
    {
      if e.Resolve? {
        var wb :| wb in h.panes && h.panes[wb] == e.pane;
        assert WorkbookOk(h, wb);
      }
      CallStep(h, e, c);
    }
    forall wb
      ensures WorkbookOk(t, wb)
    {
      WorkbookStep(h, e, wb);
    }
    forall p
      ensures PaneOk(t, p)
    {
      PaneStep(h, e, p);
    }
    forall p
      ensures RoomOk(t, p)
    {
      RoomStep(h, e, p);
    }
  }

  // ----- Runs

  ghost predicate Run(h: Hub, es: seq<Event>)
    decreases |es|
  {
    es == [] || (Enabled(h, es[0]) && Run(Apply(h, es[0]), es[1..]))
  }

  ghost function Final(h: Hub, es: seq<Event>): Hub
    requires Run(h, es)
    decreases |es|
  {
    if es == [] then h else Final(Apply(h, es[0]), es[1..])
  }

  lemma {:induction false} RunKeepsInv(h: Hub, es: seq<Event>)
    requires Inv(h) && Run(h, es)
    ensures Inv(Final(h, es)) && Final(h, es).maxInFlight == h.maxInFlight
    decreases |es|
  {
    if es != [] {
      StepKeepsInv(h, es[0]);
      RunKeepsInv(Apply(h, es[0]), es[1..]);
    }
  }

  lemma {:induction false} RunOneMore(h: Hub, es: seq<Event>, e: Event)
    requires Run(h, es) && Enabled(Final(h, es), e)
    ensures Run(h, es + [e]) && Final(h, es + [e]) == Apply(Final(h, es), e)
    decreases |es|
  {
    if es == [] {
      assert es + [e] == [e] && [e][1..] == [];
      assert Final(h, [e]) == Final(Apply(h, e), []);
    } else {
      RunOneMore(Apply(h, es[0]), es[1..], e);
      assert (es + [e])[0] == es[0] && (es + [e])[1..] == es[1..] + [e];
    }
  }

  ghost predicate Reachable(max: nat, h: Hub) {
    exists es :: Run(NewHub(max), es) && Final(NewHub(max), es) == h
  }

  lemma ReachableStep(max: nat, h: Hub, e: Event)
    requires Reachable(max, h) && Enabled(h, e)
    ensures Reachable(max, Apply(h, e))
  {
    var es :| Run(NewHub(max), es) && Final(NewHub(max), es) == h;
    RunOneMore(NewHub(max), es, e);
  }

  lemma ReachableInv(max: nat, h: Hub)
    requires Reachable(max, h)
    ensures Inv(h) && h.maxInFlight == max
  {
    var es :| Run(NewHub(max), es) && Final(NewHub(max), es) == h;
    NewHubInv(max);
    RunKeepsInv(NewHub(max), es);
  }

  // ----- What every reachable state has

  /** Each pane's pending calls stay within the limit. */
  lemma PanesWithinLimit(max: nat, h: Hub, p: PaneId)
    requires Reachable(max, h)
    ensures |OnPane(h.calls, p)| <= max
  {
    ReachableInv(max, h);
    assert RoomOk(h, p);
  }

  /** A send always finds the buffer of its call empty, so it never blocks. */
  lemma SendsNeverBlock(max: nat, h: Hub, c: CallId)
    requires Reachable(max, h) && Enabled(h, SendResult(c))
    ensures c !in h.buffers && c !in h.sent && c !in h.calls
  {
    ReachableInv(max, h);
    assert CallOk(h, c);
  }

  function SendsTo(es: seq<Event>, c: CallId): nat {
    if es == [] then 0 else (if es[0] == SendResult(c) then 1 else 0) + SendsTo(es[1..], c)
  }

  lemma OnlySendsSend(h: Hub, e: Event)
    requires Enabled(h, e) && !e.SendResult?
    ensures Apply(h, e).sent == h.sent
  {
    match e
    case Attach(_, _, _) =>
    case Unregister(_) =>
    case FailPane(_) =>
    case FinishEvicted(_) =>
    case FinishDetached(_) =>
    case Resolve(_, _) =>
    case Register(_) =>
    case SendEvent(_) =>
    case SeePaneGone(_) =>
    case Abort(_) =>
    case Drop(_) =>
    case Deliver(_, _) =>
    case Receive(_) =>
  }

  lemma SentStep(h: Hub, e: Event, c: CallId)
    requires CallOk(h, c) && Enabled(h, e)
    ensures c in Apply(h, e).sent <==> c in h.sent || e == SendResult(c)
    ensures e == SendResult(c) ==> c !in h.sent
  {
    if !e.SendResult? {
      OnlySendsSend(h, e);
    }
  }

  /** Over every interleaving a call is sent at most one result. */
  lemma {:induction false} AtMostOneResult(h: Hub, es: seq<Event>, c: CallId)
    requires Inv(h) && Run(h, es)
    ensures SendsTo(es, c) + (if c in h.sent then 1 else 0) <= 1
    decreases |es|
  {
    if es != [] {
      SentStep(h, es[0], c);
      StepKeepsInv(h, es[0]);
      AtMostOneResult(Apply(h, es[0]), es[1..], c);
    }
  }

  /** A result a Call returns was posted for that call, under its pane's workbook. */
  lemma AnswersAreTheCallsOwn(max: nat, h: Hub, c: CallId)
    requires Reachable(max, h) && c in h.threads && h.threads[c].Answered? && h.threads[c].parcel.Posted?
    ensures h.threads[c].parcel.result.id == c
    ensures h.threads[c].pane in h.info && h.threads[c].parcel.workbook == h.info[h.threads[c].pane].workbook
  {
    ReachableInv(max, h);
    assert CallOk(h, c);
  }

  /** Once Call has returned, its id is not pending. */
  lemma ReturnedCallsAreGone(max: nat, h: Hub, c: CallId)
    requires Reachable(max, h) && c in h.threads
    requires h.threads[c].Answered? || h.threads[c].GaveUp? || h.threads[c].Rejected?
    ensures c !in h.calls
  {
    ReachableInv(max, h);
    assert CallOk(h, c);
  }

  /** The late detach of a displaced pane leaves every registration alone. */
  lemma LateDetachKeepsSuccessor(max: nat, h: Hub, p: PaneId)
    requires Reachable(max, h) && p in h.displacedBy
    ensures Enabled(h, Unregister(p)) && Apply(h, Unregister(p)).panes == h.panes
  {
    ReachableInv(max, h);
    assert PaneOk(h, p);
    assert WorkbookOk(h, h.info[p].workbook);
  }

  /** The eviction reason reaches only a pane displaced by a different instance on its workbook. */
  lemma EvictionReasonIsTrue(max: nat, h: Hub, p: PaneId)
    requires Reachable(max, h) && p in h.finished && h.finished[p]
    ensures p in h.displacedBy && p in h.info && h.displacedBy[p] in h.info
    ensures var q := h.info[h.displacedBy[p]];
            q.workbook == h.info[p].workbook && q.instance != h.info[p].instance
  {
    ReachableInv(max, h);
    assert PaneOk(h, p);
  }

  lemma FinishStep(h: Hub, e: Event, p: PaneId)
    requires Enabled(h, e) && p in h.finished
    ensures p in Apply(h, e).finished && Apply(h, e).finished[p] == h.finished[p]
  {
    if !e.FinishEvicted? && !e.FinishDetached? {
      FinishedKept(h, e);
    }
  }

  /** A pane finishes once: whatever runs later, its done channel keeps what it got. */
  lemma {:induction false} FinishesOnce(h: Hub, es: seq<Event>, p: PaneId)
    requires Run(h, es) && p in h.finished
    ensures p in Final(h, es).finished && Final(h, es).finished[p] == h.finished[p]
    decreases |es|
  {
    if es != [] {
      FinishStep(h, es[0], p);
      FinishesOnce(Apply(h, es[0]), es[1..], p);
    }
  }

  // ----- Calls on a pane that goes away

  /** failPane owes "pane gone" to exactly the calls pending on that pane, and leaves the others pending. */
  lemma FailPaneTakesExactlyItsCalls(h: Hub, p: PaneId)
    requires Enabled(h, FailPane(p))
    ensures var t := Apply(h, FailPane(p));
            && OnPane(t.calls, p) == {}
            && (forall c | c in h.calls && h.calls[c] == p :: c in t.duties && t.duties[c] == PaneGone)
            && (forall c | c in h.calls && h.calls[c] != p :: c in t.calls && t.calls[c] == h.calls[c])
  {
  }

  /** A call is still pending on a pane whose failPane has run exactly when it registered after it. */
  lemma OnlyLateCallsOutliveTheirPane(max: nat, h: Hub, c: CallId)
    requires Reachable(max, h) && c in h.calls
    ensures h.calls[c] in h.failed <==> c in h.late
  {
    ReachableInv(max, h);
    assert CallOk(h, c);
  }

  /**
    No call waits for nothing. Once its pane has been failed, a registered call that is
    not late has its answer or has given up, or a result is owed to it or lies in its
    buffer; so if it is still waiting it can receive, at the latest after that send.
  */
  lemma NobodyWaitsForNothing(max: nat, h: Hub, c: CallId)
    requires Reachable(max, h) && c in h.threads && !h.threads[c].Resolved? && !h.threads[c].Rejected?
    requires h.threads[c].pane in h.failed && c !in h.late
    ensures c !in h.calls
    ensures h.threads[c].Answered? || h.threads[c].GaveUp? || c in h.duties || c in h.buffers
    ensures h.threads[c].Waiting? ==>
              Enabled(h, Receive(c)) || (Enabled(h, SendResult(c)) && Enabled(Apply(h, SendResult(c)), Receive(c)))
  {
    ReachableInv(max, h);
    assert CallOk(h, c);
  }

  /** A call resolves its pane and the pane is replaced before it registers. */
  lemma ReplacedWhileResolving() returns (h: Hub)
    ensures Reachable(8, h) && h.maxInFlight == 8 && h.calls == map[] && 0 !in h.failed
    ensures 0 in h.threads && h.threads[0] == Resolved(0) && 0 in h.info && 0 in h.displacedBy
  {
    var h0 := NewHub(8);
    assert Run(h0, []) && Final(h0, []) == h0;
    ReachableStep(8, h0, Attach(0, "book", "x"));
    var h1 := Apply(h0, Attach(0, "book", "x"));
    assert h1.panes["book"] == 0;
    ReachableStep(8, h1, Resolve(0, 0));
    var h2 := Apply(h1, Resolve(0, 0));
    ReachableStep(8, h2, Attach(1, "book", "y"));
    h := Apply(h2, Attach(1, "book", "y"));
  }

  /** Such calls exist: the pane fails its calls first, and then the late one registers. */
  lemma ACallCanRegisterLate()
    ensures exists h :: Reachable(8, h) && 0 in h.calls && h.calls[0] in h.failed
  {
    var h3 := ReplacedWhileResolving();
    ReachableStep(8, h3, FailPane(0));
    var h4 := Apply(h3, FailPane(0));
    assert OnPane(h4.calls, 0) == {};
    ReachableStep(8, h4, Register(0));
  }

  // ----- The hub object

  /** The two tables, with the locked sections as methods. */
  class RelayHub {
    var maxInFlight: nat
    var panes: map<string, PaneId>
    var calls: map<CallId, PaneId>
    var info: map<PaneId, Pane>      // the pane objects

    /** The tables are those of the protocol state h. */
    ghost predicate Mirrors(h: Hub)
      reads this
    {
      maxInFlight == h.maxInFlight && panes == h.panes && calls == h.calls && info == h.info
    }

    constructor (max: nat)
      ensures Mirrors(NewHub(max))
    {
      maxInFlight, panes, calls, info := max, map[], map[], map[];
    }

    /** Attach under the lock; prev is the pane this one replaces. */
    method AttachLocked(p: PaneId, workbook: string, instance: string, ghost h: Hub) returns (prev: Option<PaneId>)
      requires Mirrors(h) && p !in info
      modifies this
      ensures Mirrors(Apply(h, Attach(p, workbook, instance)))
      ensures prev.Some? <==> workbook in h.panes
      ensures prev.Some? ==> prev.value == h.panes[workbook] && Apply(h, Attach(p, workbook, instance)).displacedBy[prev.value] == p
    {
      prev := if workbook in panes then Some(panes[workbook]) else None;
      panes := panes[workbook := p];
      info := info[p := Pane(workbook, instance)];
    }

    /** detach under the lock. */
    method DetachLocked(p: PaneId, ghost h: Hub)
      requires Mirrors(h) && p in info
      modifies this
      ensures Mirrors(Apply(h, Unregister(p)))
    {
      var workbook := info[p].workbook;
      if workbook in panes && panes[workbook] == p {
        panes := panes - {workbook};
      }
    }

    /** failPane under the lock: the loop over the call table. */
    method FailPaneLocked(p: PaneId, ghost h: Hub) returns (gone: set<CallId>)
      requires Mirrors(h) && Enabled(h, FailPane(p))
      modifies this`calls
      ensures Mirrors(Apply(h, FailPane(p))) && gone == OnPane(h.calls, p)
    {
      gone := {};
      var todo := calls.Keys;
      while todo != {}
        invariant todo <= h.calls.Keys
        invariant gone == set c | c in h.calls && h.calls[c] == p && c !in todo
        invariant calls == map c | c in h.calls && (c in todo || h.calls[c] != p) :: h.calls[c]
        decreases todo
      {
        var id :| id in todo;
        todo := todo - {id};
        if calls[id] == p {
          gone := gone + {id};
          calls := calls - {id};
        }
      }
      assert calls == WithoutPane(h.calls, p);
    }

    /** inFlight: counts the calls pending on p. */
    method InFlight(p: PaneId) returns (n: nat)
      ensures n == |OnPane(calls, p)|
    {
      n := 0;
      var todo := calls.Keys;
      ghost var counted: set<CallId> := {};
      while todo != {}
        invariant todo <= calls.Keys
        invariant counted == set c | c in calls && calls[c] == p && c !in todo
        invariant n == |counted|
        decreases todo
      {
        var id :| id in todo;
        todo := todo - {id};
        if calls[id] == p {
          n := n + 1;
          counted := counted + {id};
        }
      }
      assert counted == OnPane(calls, p);
    }

    /** The registering section of Call. */
    method RegisterLocked(id: CallId, p: PaneId, ghost h: Hub) returns (ok: bool)
      requires Mirrors(h) && Enabled(h, Register(id)) && h.threads[id].pane == p
      modifies this`calls
      ensures Mirrors(Apply(h, Register(id))) && ok == Apply(h, Register(id)).threads[id].Sending?
    {
      var n := InFlight(p);
      if n >= maxInFlight {
        return false;
      }
      calls := calls[id := p];
      return true;
    }

    method DropLocked(id: CallId, ghost h: Hub)
      requires Mirrors(h) && Enabled(h, Drop(id))
      modifies this`calls
      ensures Mirrors(Apply(h, Drop(id)))
    {
      calls := calls - {id};
    }

    /** Deliver under the lock; when it answers true the caller sends the result. */
    method DeliverLocked(workbook: string, r: Result, ghost h: Hub) returns (taken: bool)
      requires Mirrors(h) && Inv(h)
      modifies this`calls
      ensures Mirrors(Apply(h, Deliver(workbook, r))) && taken == Takes(h.calls, h.info, workbook, r.id)
      ensures taken ==> Apply(h, Deliver(workbook, r)).duties[r.id] == Posted(workbook, r)
    {
      assert CallOk(h, r.id);
      var ok := r.id in calls;
      if ok && info[calls[r.id]].workbook != workbook {
        return false;
      }
      if ok {
        calls := calls - {r.id};
      }
      return ok;
    }

    /** resolve: the named workbook's pane, or the only one. */
    method ResolvePane(workbook: string) returns (p: Option<PaneId>)
      ensures p.Some? ==> Resolves(panes, workbook, p.value) && p.value in panes.Values
      ensures p.None? ==> forall q :: !Resolves(panes, workbook, q)
    {
      if workbook != "" {
        return if workbook in panes then Some(panes[workbook]) else None;
      }
      if |panes| != 1 {
        return None;
      }
      OneEntry(panes);
      var wb :| wb in panes;
      return Some(panes[wb]);
    }
  }

  lemma OneEntry(panes: map<string, PaneId>)
    requires |panes| == 1
    ensures forall wb, w | wb in panes && w in panes :: wb == w
    ensures forall wb | wb in panes :: panes.Values == {panes[wb]}
  {
    assert |panes.Keys| == 1;
    var wb :| wb in panes;
    assert |panes.Keys - {wb}| == 0;
    assert forall w | w in panes && w != wb :: w in panes.Keys - {wb};
  }
}

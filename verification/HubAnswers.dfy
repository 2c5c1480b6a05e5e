/**
  What a relayed call returns, told from the events of a run (excel-addin/bridge/hub.go):
  the result that was posted for it, or "pane gone" from the failing of its own pane.
*/
module HubAnswers {
  import opened Wrappers
  import opened HubProtocol

  /** The event takes c out of the table with a posted result, or with its pane. */
  function TakenBy(h: Hub, e: Event, c: CallId): Option<Parcel> {
    if e.Deliver? && e.result.id == c && Takes(h.calls, h.info, e.workbook, c) then Some(Posted(e.workbook, e.result))
    else if e.FailPane? && c in h.calls && h.calls[c] == e.pane then Some(PaneGone)
    else None
  }

  /** The first event of a run that takes c out of the table that way. */
  ghost function FirstTaken(h: Hub, es: seq<Event>, c: CallId): Option<Parcel>
    requires Run(h, es)
    decreases |es|
  {
    if es == [] then None
    else if TakenBy(h, es[0], c).Some? then TakenBy(h, es[0], c)
    else FirstTaken(Apply(h, es[0]), es[1..], c)
  }

  /** Whatever is on its way to c, or was received, is x. */
  predicate Carries(h: Hub, c: CallId, x: Option<Parcel>) {
    && (c in h.duties ==> x == Some(h.duties[c]))
    && (c in h.buffers ==> x == Some(h.buffers[c]))
    && (c in h.threads && h.threads[c].Answered? ==> x == Some(h.threads[c].parcel))
  }

  /** A call that is not pending any more never is again. */
  predicate Left(h: Hub, c: CallId) {
    c in h.threads && !h.threads[c].Resolved? && c !in h.calls
  }

  /** Events that touch neither the calls nor what is on its way. */
  predicate Quiet(e: Event, c: CallId) {
    match e
    case Attach(_, _, _) => true
    case Unregister(_) => true
    case FinishEvicted(_) => true
    case FinishDetached(_) => true
    case Resolve(d, _) => d != c
    case Register(_) => false
    case SendEvent(d) => d != c
    case SeePaneGone(d) => d != c
    case Abort(d) => d != c
    case Drop(d) => d != c
    case Receive(d) => d != c
    case SendResult(d) => d != c
    case Deliver(_, _) => false
    case FailPane(_) => false
  }

  /** Two states agree on everything about c. */
  predicate SameFor(h: Hub, t: Hub, c: CallId) {
    && (c in t.threads <==> c in h.threads) && (c in h.threads ==> t.threads[c] == h.threads[c])
    && (c in t.calls <==> c in h.calls) && (c in h.calls ==> t.calls[c] == h.calls[c])
    && (c in t.duties <==> c in h.duties) && (c in h.duties ==> t.duties[c] == h.duties[c])
    && (c in t.buffers <==> c in h.buffers) && (c in h.buffers ==> t.buffers[c] == h.buffers[c])
  }

  lemma QuietStep(h: Hub, e: Event, c: CallId)
    requires Enabled(h, e) && Quiet(e, c)
    ensures SameFor(h, Apply(h, e), c) && TakenBy(h, e, c) == None
  {
    match e
    case Attach(_, _, _) =>
    case Unregister(_) =>
    case FinishEvicted(_) =>
    case FinishDetached(_) =>
    case _ =>
  }

  lemma RegisterKeepsLeft(h: Hub, call: CallId, full: bool, c: CallId)
    requires CallOk(h, c) && Enabled(h, Register(call)) && Left(h, c)
    ensures Left(Enroll(h, call, h.threads[call].pane, full), c)
  {
  }

  lemma StaysLeft(h: Hub, e: Event, c: CallId)
    requires CallOk(h, c) && Enabled(h, e) && Left(h, c)
    ensures Left(Apply(h, e), c) && TakenBy(h, e, c) == None
  {
    if Quiet(e, c) {
      QuietStep(h, e, c);
    } else if e.Register? {
      RegisterKeepsLeft(h, e.call, |OnPane(h.calls, h.threads[e.call].pane)| >= h.maxInFlight, c);
    }
  }

  lemma TakenIsCarried(h: Hub, e: Event, c: CallId)
    requires CallOk(h, c) && Enabled(h, e) && TakenBy(h, e, c).Some?
    ensures Carries(Apply(h, e), c, TakenBy(h, e, c)) && Left(Apply(h, e), c)
  {
  }

  lemma RegisterCarries(h: Hub, call: CallId, full: bool, c: CallId, x: Option<Parcel>)
    requires CallOk(h, c) && Enabled(h, Register(call)) && Carries(h, c, x)
    ensures Carries(Enroll(h, call, h.threads[call].pane, full), c, x)
  {
  }

  /** An event that sends results on their way, but not to c. */
  lemma OthersTaken(h: Hub, e: Event, c: CallId, x: Option<Parcel>)
    requires CallOk(h, c) && Enabled(h, e) && TakenBy(h, e, c).None? && Carries(h, c, x) && (e.Deliver? || e.FailPane?)
    ensures Carries(Apply(h, e), c, x)
  {
  }

  /** The call's own steps. */
  lemma OwnCarries(h: Hub, e: Event, c: CallId, x: Option<Parcel>)
    requires CallOk(h, c) && Enabled(h, e) && Carries(h, c, x) && !Quiet(e, c) && !e.Register? && !e.Deliver? && !e.FailPane?
    ensures Carries(Apply(h, e), c, x)
  {
  }

  lemma OthersCarryOn(h: Hub, e: Event, c: CallId, x: Option<Parcel>)
    requires CallOk(h, c) && Enabled(h, e) && TakenBy(h, e, c).None? && Carries(h, c, x)
    ensures Carries(Apply(h, e), c, x)
  {
    if Quiet(e, c) {
      QuietStep(h, e, c);
    } else if e.Register? {
      RegisterCarries(h, e.call, |OnPane(h.calls, h.threads[e.call].pane)| >= h.maxInFlight, c, x);
    } else if e.Deliver? || e.FailPane? {
      OthersTaken(h, e, c, x);
    } else {
      OwnCarries(h, e, c, x);
    }
  }

  lemma {:induction false} LeftCarriesTheSame(h: Hub, es: seq<Event>, c: CallId, x: Option<Parcel>)
    requires Inv(h) && Run(h, es) && Left(h, c) && Carries(h, c, x)
    ensures Carries(Final(h, es), c, x)
    decreases |es|
  {
    if es != [] {
      assert CallOk(h, c);
      StaysLeft(h, es[0], c);
      OthersCarryOn(h, es[0], c, x);
      StepKeepsInv(h, es[0]);
      LeftCarriesTheSame(Apply(h, es[0]), es[1..], c, x);
    }
  }

  lemma {:induction false} RunCarriesTheTaken(h: Hub, es: seq<Event>, c: CallId)
    requires Inv(h) && Run(h, es) && Carries(h, c, None)
    ensures Carries(Final(h, es), c, FirstTaken(h, es, c))
    decreases |es|
  {
    if es != [] {
      assert CallOk(h, c);
      StepKeepsInv(h, es[0]);
      if TakenBy(h, es[0], c).Some? {
        TakenIsCarried(h, es[0], c);
        LeftCarriesTheSame(Apply(h, es[0]), es[1..], c, TakenBy(h, es[0], c));
      } else {
        OthersCarryOn(h, es[0], c, None);
        RunCarriesTheTaken(Apply(h, es[0]), es[1..], c);
      }
    }
  }

  /** At position i of the run a result of c is posted under its pane's workbook while it is pending. */
  ghost predicate DeliveredAt(h: Hub, es: seq<Event>, i: nat, c: CallId, workbook: string, r: HubProtocol.Result) {
    && i < |es| && es[i] == Deliver(workbook, r) && r.id == c && Run(h, es[..i])
    && var t := Final(h, es[..i]); c in t.calls && t.calls[c] in t.info && t.info[t.calls[c]].workbook == workbook
  }

  /** At position i of the run the pane that c is pending on is failed. */
  ghost predicate FailedAt(h: Hub, es: seq<Event>, i: nat, c: CallId, p: PaneId) {
    i < |es| && es[i] == FailPane(p) && Run(h, es[..i]) && c in Final(h, es[..i]).calls && Final(h, es[..i]).calls[c] == p
  }

  lemma Later(h: Hub, es: seq<Event>, i: nat)
    requires Run(h, es) && es != [] && i < |es[1..]| && Run(Apply(h, es[0]), es[1..][..i])
    ensures es[i + 1] == es[1..][i] && Run(h, es[..i + 1]) && Final(h, es[..i + 1]) == Final(Apply(h, es[0]), es[1..][..i])
  {
    assert es[..i + 1][0] == es[0] && es[..i + 1][1..] == es[1..][..i];
  }

  /** Where the first taking of c happened. */
  lemma {:induction false} WhereTaken(h: Hub, es: seq<Event>, c: CallId) returns (i: nat)
    requires Run(h, es) && FirstTaken(h, es, c).Some?
    ensures match FirstTaken(h, es, c).value
            case Posted(workbook, r) => DeliveredAt(h, es, i, c, workbook, r)
            case PaneGone => exists p :: FailedAt(h, es, i, c, p)
    decreases |es|
  {
    if TakenBy(h, es[0], c).Some? {
      i := 0;
      assert es[..0] == [];
      if es[0].FailPane? {
        assert FailedAt(h, es, 0, c, es[0].pane);
      }
    } else {
      var k := WhereTaken(Apply(h, es[0]), es[1..], c);
      Later(h, es, k);
      i := k + 1;
      if FirstTaken(h, es, c).value.PaneGone? {
        var p :| FailedAt(Apply(h, es[0]), es[1..], k, c, p);
        assert FailedAt(h, es, i, c, p);
      }
    }
  }

  /**
    What Call returns came from an event of the run: a posted result was posted for it,
    content included, while it was pending on a pane of that workbook; "pane gone" means
    that its own pane was failed while it was pending.
  */
  lemma AnswersHaveTheirEvent(max: nat, es: seq<Event>, c: CallId) returns (i: nat)
    requires Run(NewHub(max), es) && c in Final(NewHub(max), es).threads && Final(NewHub(max), es).threads[c].Answered?
    ensures match Final(NewHub(max), es).threads[c].parcel
            case Posted(workbook, r) => DeliveredAt(NewHub(max), es, i, c, workbook, r)
            case PaneGone => exists p :: FailedAt(NewHub(max), es, i, c, p)
  {
    NewHubInv(max);
    RunCarriesTheTaken(NewHub(max), es, c);
    i := WhereTaken(NewHub(max), es, c);
  }

  /** A call taken by a posted result can be answered with that result only. */
  lemma DeliveredIsTheAnswer(h: Hub, workbook: string, r: HubProtocol.Result, es: seq<Event>)
    requires Inv(h) && r.id in h.calls && h.calls[r.id] in h.info && h.info[h.calls[r.id]].workbook == workbook
    requires Run(Apply(h, Deliver(workbook, r)), es)
    ensures var t := Final(Apply(h, Deliver(workbook, r)), es);
            r.id in t.threads && t.threads[r.id].Answered? ==> t.threads[r.id].parcel == Posted(workbook, r)
  {
    assert CallOk(h, r.id);
    TakenIsCarried(h, Deliver(workbook, r), r.id);
    StepKeepsInv(h, Deliver(workbook, r));
    LeftCarriesTheSame(Apply(h, Deliver(workbook, r)), es, r.id, Some(Posted(workbook, r)));
  }

  // ----- How a call ends

  /** The phases a call does not leave. */
  predicate Ended(t: CallPhase) {
    t.Answered? || t.GaveUp? || t.Rejected?
  }

  lemma RegisterKeepsEnds(h: Hub, call: CallId, full: bool, c: CallId)
    requires Enabled(h, Register(call)) && c in h.threads && c != call
    ensures c in Enroll(h, call, h.threads[call].pane, full).threads
    ensures Enroll(h, call, h.threads[call].pane, full).threads[c] == h.threads[c]
  {
  }

  lemma EndStep(h: Hub, e: Event, c: CallId)
    requires Enabled(h, e)
    ensures e == Receive(c) ==> Apply(h, e).threads[c].Answered?
    ensures e == Drop(c) ==> Apply(h, e).threads[c].GaveUp?
    ensures c in h.threads && Ended(h.threads[c]) ==> c in Apply(h, e).threads && Apply(h, e).threads[c] == h.threads[c]
  {
    if Quiet(e, c) {
      QuietStep(h, e, c);
    } else if e.Register? && c in h.threads && Ended(h.threads[c]) {
      RegisterKeepsEnds(h, e.call, |OnPane(h.calls, h.threads[e.call].pane)| >= h.maxInFlight, c);
    }
  }

  lemma {:induction false} EndStays(h: Hub, es: seq<Event>, c: CallId)
    requires Inv(h) && Run(h, es) && c in h.threads && Ended(h.threads[c])
    ensures c in Final(h, es).threads && Final(h, es).threads[c] == h.threads[c]
    decreases |es|
  {
    if es != [] {
      assert CallOk(h, c);
      EndStep(h, es[0], c);
      StepKeepsInv(h, es[0]);
      EndStays(Apply(h, es[0]), es[1..], c);
    }
  }

  /** A call that receives is answered for good, one that drops has given up for good. */
  lemma {:induction false} ReceivedIsAnswered(h: Hub, es: seq<Event>, c: CallId)
    requires Inv(h) && Run(h, es)
    ensures Receive(c) in es ==> c in Final(h, es).threads && Final(h, es).threads[c].Answered?
    ensures Drop(c) in es ==> c in Final(h, es).threads && Final(h, es).threads[c].GaveUp?
    decreases |es|
  {
    if es != [] {
      var t := Apply(h, es[0]);
      assert CallOk(h, c);
      EndStep(h, es[0], c);
      StepKeepsInv(h, es[0]);
      ReceivedIsAnswered(t, es[1..], c);
      if es[0] == Receive(c) || es[0] == Drop(c) {
        EndStays(t, es[1..], c);
      }
      assert forall e | e in es :: e == es[0] || e in es[1..];
    }
  }

  // ----- Who is told that it was evicted

  /** The event that finishes p: the first one counts. */
  function FirstFinish(es: seq<Event>, p: PaneId): Option<Event> {
    if es == [] then None
    else if es[0] == FinishEvicted(p) || es[0] == FinishDetached(p) then Some(es[0])
    else FirstFinish(es[1..], p)
  }

  predicate OtherInstance(h: Hub, p: PaneId) {
    p in h.info && p in h.displacedBy && h.displacedBy[p] in h.info && h.info[p].instance != h.info[h.displacedBy[p]].instance
  }

  /** Who displaced a pane is settled once. */
  lemma DisplacedOnce(h: Hub, e: Event, p: PaneId)
    requires Inv(h) && Enabled(h, e) && p in h.displacedBy
    ensures p in Apply(h, e).displacedBy && OtherInstance(Apply(h, e), p) == OtherInstance(h, p)
  {
    assert PaneOk(h, p);
    if e.Attach? {
      assert WorkbookOk(h, e.workbook);
    } else {
      InfoKept(h, e);
    }
  }

  lemma {:induction false} DisplacedForGood(h: Hub, es: seq<Event>, p: PaneId)
    requires Inv(h) && Run(h, es) && p in h.displacedBy
    ensures p in Final(h, es).displacedBy && OtherInstance(Final(h, es), p) == OtherInstance(h, p)
    decreases |es|
  {
    if es != [] {
      DisplacedOnce(h, es[0], p);
      StepKeepsInv(h, es[0]);
      DisplacedForGood(Apply(h, es[0]), es[1..], p);
    }
  }

  lemma FinishedNow(h: Hub, e: Event, p: PaneId)
    requires Inv(h) && Enabled(h, e) && p !in h.finished && (e == FinishEvicted(p) || e == FinishDetached(p))
    ensures p in Apply(h, e).finished && (Apply(h, e).finished[p] <==> e == FinishEvicted(p) && OtherInstance(h, p))
  {
    assert PaneOk(h, p);
  }

  lemma NotFinishedNow(h: Hub, e: Event, p: PaneId)
    requires Enabled(h, e) && p !in h.finished && e != FinishEvicted(p) && e != FinishDetached(p)
    ensures p !in Apply(h, e).finished
  {
    if !e.FinishEvicted? && !e.FinishDetached? {
      FinishedKept(h, e);
    }
  }

  /** What finished holds of p at the end, given its first finishing event. */
  ghost predicate Told(t: Hub, first: Option<Event>, p: PaneId) {
    && (p in t.finished <==> first.Some?)
    && (p in t.finished ==> (t.finished[p] <==> first == Some(FinishEvicted(p)) && OtherInstance(t, p)))
  }

  lemma ToldFromNowOn(h: Hub, es: seq<Event>, p: PaneId)
    requires Inv(h) && Run(h, es) && p !in h.finished && es != [] && (es[0] == FinishEvicted(p) || es[0] == FinishDetached(p))
    ensures Told(Final(h, es), Some(es[0]), p)
  {
    FinishedNow(h, es[0], p);
    FinishesOnce(Apply(h, es[0]), es[1..], p);
    if es[0] == FinishEvicted(p) {
      DisplacedForGood(h, es, p);
    }
  }

  lemma {:induction false} ReasonIff(h: Hub, es: seq<Event>, p: PaneId)
    requires Inv(h) && Run(h, es) && p !in h.finished
    ensures Told(Final(h, es), FirstFinish(es, p), p)
    decreases |es|
  {
    if es != [] {
      if es[0] == FinishEvicted(p) || es[0] == FinishDetached(p) {
        ToldFromNowOn(h, es, p);
      } else {
        NotFinishedNow(h, es[0], p);
        StepKeepsInv(h, es[0]);
        ReasonIff(Apply(h, es[0]), es[1..], p);
      }
    }
  }

  /**
    Over any run: a finished pane was given the eviction reason if and only if the Attach
    that displaced it finished it first and comes from another instance.
  */
  lemma EvictedIffAnotherInstance(max: nat, es: seq<Event>, p: PaneId)
    requires Run(NewHub(max), es)
    ensures Told(Final(NewHub(max), es), FirstFinish(es, p), p)
  {
    NewHubInv(max);
    ReasonIff(NewHub(max), es, p);
  }

  // ----- The order in which a pane goes away

  predicate Registered(h: Hub, p: PaneId) {
    p in h.info && h.info[p].workbook in h.panes && h.panes[h.info[p].workbook] == p
  }

  /** A pane is finished after its calls were failed, and failed after it lost its registration. */
  predicate GoneInOrder(h: Hub, p: PaneId) {
    && (p in h.finished ==> p in h.failed)
    && (p in h.failed ==> p in h.info && !Registered(h, p))
  }

  lemma AttachKeepsOrder(h: Hub, e: Event, p: PaneId)
    requires e.Attach? && Enabled(h, e) && GoneInOrder(h, p) && p != e.pane
    ensures GoneInOrder(Apply(h, e), p)
  {
  }

  lemma FailKeepsOrder(h: Hub, p: PaneId)
    requires Enabled(h, FailPane(p)) && PaneOk(h, p) && WorkbookOk(h, h.info[p].workbook)
    ensures GoneInOrder(Apply(h, FailPane(p)), p)
  {
  }

  lemma OrderStep(h: Hub, e: Event, p: PaneId)
    requires Enabled(h, e) && GoneInOrder(h, p) && PaneOk(h, p)
    requires e == FailPane(p) ==> WorkbookOk(h, h.info[p].workbook)
    ensures GoneInOrder(Apply(h, e), p)
  {
    if e.Attach? {
      if p != e.pane {
        AttachKeepsOrder(h, e, p);
      }
    } else if e == FailPane(p) {
      FailKeepsOrder(h, p);
    } else {
      InfoKept(h, e);
      if !e.Unregister? {
        PanesKept(h, e);
      }
    }
  }

  lemma {:induction false} RunKeepsOrder(h: Hub, es: seq<Event>, p: PaneId)
    requires Inv(h) && Run(h, es) && GoneInOrder(h, p)
    ensures GoneInOrder(Final(h, es), p)
    decreases |es|
  {
    if es != [] {
      assert PaneOk(h, p);
      if es[0] == FailPane(p) {
        assert WorkbookOk(h, h.info[p].workbook);
      }
      OrderStep(h, es[0], p);
      StepKeepsInv(h, es[0]);
      RunKeepsOrder(Apply(h, es[0]), es[1..], p);
    }
  }

  /** Whatever interleaves: a finished pane has had its calls failed, and a registered pane has not. */
  lemma PanesGoInOrder(max: nat, h: Hub, p: PaneId)
    requires Reachable(max, h)
    ensures p in h.finished ==> p in h.failed
    ensures Registered(h, p) ==> p !in h.failed && p !in h.finished
  {
    var es :| Run(NewHub(max), es) && Final(NewHub(max), es) == h;
    NewHubInv(max);
    RunKeepsOrder(NewHub(max), es, p);
  }

  /** A call is told that its pane is gone only once the pane is finished. */
  lemma {:induction false} SawAFinishedPane(h: Hub, es: seq<Event>, c: CallId)
    requires Inv(h) && Run(h, es) && SeePaneGone(c) in es && c in h.threads && !h.threads[c].Rejected?
    ensures h.threads[c].pane in Final(h, es).finished
    decreases |es|
  {
    var p := h.threads[c].pane;
    if es[0] == SeePaneGone(c) {
      FinishesOnce(h, es, p);
    } else {
      assert CallOk(h, c);
      PaneOfCall(h, es[0], c);
      StepKeepsInv(h, es[0]);
      if Apply(h, es[0]).threads[c].Rejected? {
        RejectedSeesNothing(Apply(h, es[0]), es[1..], c);
      } else {
        SawAFinishedPane(Apply(h, es[0]), es[1..], c);
      }
    }
  }

  /** A call keeps the pane it resolved. */
  lemma PaneOfCall(h: Hub, e: Event, c: CallId)
    requires Enabled(h, e) && c in h.threads && !h.threads[c].Rejected?
    ensures c in Apply(h, e).threads
    ensures Apply(h, e).threads[c].Rejected? || Apply(h, e).threads[c].pane == h.threads[c].pane
  {
    if Quiet(e, c) {
      QuietStep(h, e, c);
    } else if e.Register? {
      PaneOfRegistered(h, e.call, |OnPane(h.calls, h.threads[e.call].pane)| >= h.maxInFlight, c);
    }
  }

  lemma PaneOfRegistered(h: Hub, call: CallId, full: bool, c: CallId)
    requires Enabled(h, Register(call)) && c in h.threads && !h.threads[c].Rejected?
    ensures var t := Enroll(h, call, h.threads[call].pane, full);
            c in t.threads && (t.threads[c].Rejected? || t.threads[c].pane == h.threads[c].pane)
  {
  }

  lemma RejectedSeesNothing(h: Hub, es: seq<Event>, c: CallId)
    requires Inv(h) && Run(h, es) && c in h.threads && h.threads[c].Rejected?
    ensures SeePaneGone(c) !in es
    decreases |es|
  {
    if es != [] {
      assert CallOk(h, c);
      EndStep(h, es[0], c);
      StepKeepsInv(h, es[0]);
      RejectedSeesNothing(Apply(h, es[0]), es[1..], c);
      assert forall e | e in es :: e == es[0] || e in es[1..];
    }
  }

  /** No call is stuck: while it has not ended, one of its own steps is enabled. */
  lemma OpenCallsCanMove(max: nat, h: Hub, c: CallId)
    requires Reachable(max, h) && c in h.threads && Open(h.threads[c])
    ensures h.threads[c].Sending? ==> Enabled(h, SendEvent(c)) && Enabled(h, Abort(c))
    ensures h.threads[c].Sending? && h.threads[c].pane in h.finished ==> Enabled(h, SeePaneGone(c))
    ensures h.threads[c].Waiting? ==> Enabled(h, Abort(c)) && (c in h.buffers ==> Enabled(h, Receive(c)))
    ensures h.threads[c].Dropping? ==> Enabled(h, Drop(c))
  {
  }

  lemma AbortThenDrop(h: Hub, c: CallId)
    requires Enabled(h, Abort(c))
    ensures var t := Apply(h, Abort(c)); c in t.threads && t.threads[c].Dropping? && Enabled(t, Drop(c))
  {
  }

  lemma DropEnds(h: Hub, c: CallId)
    requires Enabled(h, Drop(c))
    ensures var t := Apply(h, Drop(c)); c in t.threads && t.threads[c].GaveUp? && c !in t.calls
  {
  }

  /** A call whose timer fires, or whose pane is gone, can always return at once. */
  lemma OpenCallsCanEnd(max: nat, h: Hub, c: CallId) returns (es: seq<Event>)
    requires Reachable(max, h) && c in h.threads && Open(h.threads[c])
    ensures Run(h, es) && |es| <= 2 && c in Final(h, es).threads && Final(h, es).threads[c].GaveUp?
  {
    if h.threads[c].Dropping? {
      DropEnds(h, c);
      RunOneMore(h, [], Drop(c));
      es := [] + [Drop(c)];
    } else {
      AbortThenDrop(h, c);
      var t := Apply(h, Abort(c));
      DropEnds(t, c);
      RunOneMore(h, [], Abort(c));
      RunOneMore(h, [] + [Abort(c)], Drop(c));
      es := [] + [Abort(c)] + [Drop(c)];
    }
  }
}

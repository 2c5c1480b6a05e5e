/**
  The limit on concurrent calls (excel-addin/bridge/hub.go) is documented per workbook
  and counted per pane. A workbook whose pane was replaced can have calls on both.
*/
module HubWorkbooks {
  import opened Wrappers
  import opened HubProtocol

  /** The ids of the calls pending on any pane of a workbook. */
  function OnWorkbook(h: Hub, wb: string): set<CallId> {
    set c | c in h.calls && h.calls[c] in h.info && h.info[h.calls[c]].workbook == wb
  }

  /** A call that is pending, or about to register, on a pane of the workbook other than p. */
  predicate Astray(h: Hub, wb: string, p: PaneId, c: CallId) {
    && c in h.threads && (h.threads[c].Resolved? || (c in h.calls && !h.threads[c].Rejected?))
    && h.threads[c].pane in h.info && h.info[h.threads[c].pane].workbook == wb && h.threads[c].pane != p
  }

  predicate NoAttach(es: seq<Event>, wb: string) {
    forall i | 0 <= i < |es| :: es[i].Attach? ==> es[i].workbook != wb
  }

  // ----- No call astray: the limit holds

  /** While nothing attaches to it, the workbook is p's. */
  ghost predicate OwnedBy(h: Hub, wb: string, p: PaneId) {
    && p in h.info && h.info[p].workbook == wb
    && (wb in h.panes ==> h.panes[wb] == p)
    && forall c :: !Astray(h, wb, p, c)
  }

  lemma ResolvesToOwner(h: Hub, e: Event, wb: string, p: PaneId)
    requires Inv(h) && Enabled(h, e) && OwnedBy(h, wb, p) && e.Resolve?
    ensures e.pane in h.info && (h.info[e.pane].workbook == wb ==> e.pane == p)
  {
    var w :| w in h.panes && h.panes[w] == e.pane;
    assert WorkbookOk(h, w);
  }

  lemma RegisterKeepsPlace(h: Hub, call: CallId, full: bool, wb: string, p: PaneId, c: CallId)
    requires CallOk(h, c) && Enabled(h, Register(call)) && !Astray(h, wb, p, c)
    ensures !Astray(Enroll(h, call, h.threads[call].pane, full), wb, p, c)
  {
  }

  lemma AttachKeepsPlace(h: Hub, e: Event, wb: string, p: PaneId, c: CallId)
    requires CallOk(h, c) && Enabled(h, e) && e.Attach? && e.workbook != wb && !Astray(h, wb, p, c)
    ensures !Astray(Apply(h, e), wb, p, c)
  {
  }

  lemma PhaseKeepsPlace(h: Hub, e: Event, wb: string, p: PaneId, c: CallId)
    requires CallOk(h, c) && Enabled(h, e) && !Astray(h, wb, p, c)
    requires e.SendEvent? || e.SeePaneGone? || e.Abort? || e.Drop? || e.Receive?
    ensures !Astray(Apply(h, e), wb, p, c)
  {
  }

  lemma StepKeepsPlace(h: Hub, e: Event, wb: string, p: PaneId, c: CallId)
    requires CallOk(h, c) && Enabled(h, e) && !Astray(h, wb, p, c) && (e.Attach? ==> e.workbook != wb)
    requires e.Resolve? ==> e.pane in h.info && (h.info[e.pane].workbook == wb ==> e.pane == p)
    ensures !Astray(Apply(h, e), wb, p, c)
  {
    if e.Attach? {
      AttachKeepsPlace(h, e, wb, p, c);
    } else if e.Register? {
      RegisterKeepsPlace(h, e.call, |OnPane(h.calls, h.threads[e.call].pane)| >= h.maxInFlight, wb, p, c);
    } else if e.SendEvent? || e.SeePaneGone? || e.Abort? || e.Drop? || e.Receive? {
      PhaseKeepsPlace(h, e, wb, p, c);
    }
  }

  lemma StepKeepsOwner(h: Hub, e: Event, wb: string, p: PaneId)
    requires Inv(h) && Enabled(h, e) && OwnedBy(h, wb, p) && (e.Attach? ==> e.workbook != wb)
    ensures OwnedBy(Apply(h, e), wb, p)
  {
    if e.Resolve? {
      ResolvesToOwner(h, e, wb, p);
    }
    forall c
      ensures !Astray(Apply(h, e), wb, p, c)
    {
      assert CallOk(h, c);
      StepKeepsPlace(h, e, wb, p, c);
    }
    if !e.Attach? {
      InfoKept(h, e);
      if !e.Unregister? {
        PanesKept(h, e);
      }
    }
  }

  lemma OwnedIsWithinLimit(h: Hub, wb: string, p: PaneId)
    requires Inv(h) && OwnedBy(h, wb, p)
    ensures |OnWorkbook(h, wb)| <= h.maxInFlight
  {
    forall c | c in OnWorkbook(h, wb)
      ensures c in OnPane(h.calls, p)
    {
      assert CallOk(h, c) && !Astray(h, wb, p, c);
    }
    SubsetCount(OnWorkbook(h, wb), OnPane(h.calls, p));
    assert RoomOk(h, p);
  }

  lemma {:induction false} OwnedRunIsWithinLimit(h: Hub, es: seq<Event>, wb: string, p: PaneId)
    requires Inv(h) && Run(h, es) && NoAttach(es, wb) && OwnedBy(h, wb, p)
    ensures |OnWorkbook(Final(h, es), wb)| <= h.maxInFlight
    decreases |es|
  {
    if es == [] {
      OwnedIsWithinLimit(h, wb, p);
    } else {
      StepKeepsInv(h, es[0]);
      StepKeepsOwner(h, es[0], wb, p);
      OwnedRunIsWithinLimit(Apply(h, es[0]), es[1..], wb, p);
    }
  }

  // ----- A call astray: the limit can be exceeded

  lemma Prepend(h: Hub, e: Event, es: seq<Event>)
    requires Enabled(h, e) && Run(Apply(h, e), es)
    ensures Run(h, [e] + es) && Final(h, [e] + es) == Final(Apply(h, e), es)
  {
    assert ([e] + es)[0] == e && ([e] + es)[1..] == es;
  }

  lemma FullPaneAndOneMore(h: Hub, wb: string, p: PaneId, c: CallId)
    requires p in h.info && h.info[p].workbook == wb && |OnPane(h.calls, p)| >= h.maxInFlight
    requires c in OnWorkbook(h, wb) && h.calls[c] != p
    ensures |OnWorkbook(h, wb)| > h.maxInFlight
  {
    var on := OnPane(h.calls, p);
    assert |on + {c}| == |on| + 1;
    SubsetCount(on + {c}, OnWorkbook(h, wb));
  }

  /** The calls that fill the registered pane. */
  lemma {:induction false} FillPane(h: Hub, wb: string, p: PaneId, c: CallId) returns (es: seq<Event>)
    requires Inv(h) && wb in h.panes && h.panes[wb] == p && c in OnWorkbook(h, wb) && h.calls[c] != p
    ensures Run(h, es) && NoAttach(es, wb) && |OnWorkbook(Final(h, es), wb)| > h.maxInFlight
    decreases h.maxInFlight - |OnPane(h.calls, p)|
  {
    assert WorkbookOk(h, wb);
    if |OnPane(h.calls, p)| >= h.maxInFlight {
      FullPaneAndOneMore(h, wb, p, c);
      es := [];
    } else {
      var d := Unused(h.threads.Keys);
      var t := OneMoreOn(h, wb, p, d);
      es := FillPane(t, wb, p, c);
      Prepend(Apply(h, Resolve(d, p)), Register(d), es);
      Prepend(h, Resolve(d, p), [Register(d)] + es);
      es := [Resolve(d, p)] + ([Register(d)] + es);
    }
  }

  lemma OneMoreOn(h: Hub, wb: string, p: PaneId, d: CallId) returns (t: Hub)
    requires Inv(h) && wb in h.panes && h.panes[wb] == p && |OnPane(h.calls, p)| < h.maxInFlight && d !in h.threads
    ensures Enabled(h, Resolve(d, p)) && Enabled(Apply(h, Resolve(d, p)), Register(d))
    ensures t == Apply(Apply(h, Resolve(d, p)), Register(d)) && Inv(t)
    ensures t.panes == h.panes && t.info == h.info && t.maxInFlight == h.maxInFlight && t.calls == h.calls[d := p]
    ensures d !in h.calls && |OnPane(t.calls, p)| == |OnPane(h.calls, p)| + 1
  {
    assert p in h.panes.Values;
    assert CallOk(h, d);
    StepKeepsInv(h, Resolve(d, p));
    StepKeepsInv(Apply(h, Resolve(d, p)), Register(d));
    t := Apply(Apply(h, Resolve(d, p)), Register(d));
    OneMoreCall(h.calls, d, p, p);
  }

  /** A call that is only about to register on the other pane does so, or finds it full. */
  lemma StrayExceeds(h: Hub, wb: string, p: PaneId, c: CallId) returns (es: seq<Event>)
    requires Inv(h) && h.maxInFlight > 0 && wb in h.panes && h.panes[wb] == p && Astray(h, wb, p, c)
    ensures Run(h, es) && NoAttach(es, wb) && |OnWorkbook(Final(h, es), wb)| > h.maxInFlight
  {
    assert CallOk(h, c);
    if c in h.calls {
      es := FillPane(h, wb, p, c);
    } else {
      var q := h.threads[c].pane;
      if |OnPane(h.calls, q)| >= h.maxInFlight {
        var d :| d in OnPane(h.calls, q);
        es := FillPane(h, wb, p, d);
      } else {
        StepKeepsInv(h, Register(c));
        es := FillPane(Apply(h, Register(c)), wb, p, c);
        Prepend(h, Register(c), es);
        es := [Register(c)] + es;
      }
    }
  }

  /**
    The documented limit, exactly: as long as nobody attaches to the workbook its pending
    calls stay within MaxInFlight in every continuation, if and only if no call is
    pending or about to register on a pane of the workbook other than the registered one.
  */
  lemma WorkbookWithinLimitIff(max: nat, h: Hub, wb: string)
    requires Reachable(max, h) && max > 0 && wb in h.panes
    ensures (forall es | Run(h, es) && NoAttach(es, wb) :: |OnWorkbook(Final(h, es), wb)| <= max)
       <==> forall c :: !Astray(h, wb, h.panes[wb], c)
  {
    var p := h.panes[wb];
    ReachableInv(max, h);
    assert WorkbookOk(h, wb);
    if c :| Astray(h, wb, p, c) {
      var es := StrayExceeds(h, wb, p, c);
    } else {
      forall es | Run(h, es) && NoAttach(es, wb)
        ensures |OnWorkbook(Final(h, es), wb)| <= max
      {
        OwnedRunIsWithinLimit(h, es, wb, p);
      }
    }
  }

  lemma RegisteredOn(max: nat, h: Hub, wb: string, p: PaneId, d: CallId) returns (t: Hub)
    requires Reachable(max, h) && wb in h.panes && h.panes[wb] == p && |OnPane(h.calls, p)| < max && d !in h.threads
    ensures Reachable(max, t) && t.panes == h.panes && t.info == h.info && t.maxInFlight == max
    ensures t.calls == h.calls[d := p] && t.threads == h.threads[d := Sending(p)]
  {
    ReachableInv(max, h);
    t := OneMoreOn(h, wb, p, d);
    ReachableStep(max, h, Resolve(d, p));
    ReachableStep(max, Apply(h, Resolve(d, p)), Register(d));
  }

  lemma BothCalls(h: Hub)
    requires h.calls == map[0 := 0, 1 := 1] && h.info == map[0 := Pane("book", "x"), 1 := Pane("book", "y")]
    ensures |OnWorkbook(h, "book")| == 2
  {
    assert OnWorkbook(h, "book") == {0, 1};
  }

  /** A call on a pane that is then replaced by another instance. */
  lemma ReplacedWhileBusy() returns (h: Hub)
    ensures Reachable(1, h) && h.maxInFlight == 1 && h.calls == map[0 := 0] && 1 !in h.threads
    ensures "book" in h.panes && h.panes["book"] == 1 && h.info == map[0 := Pane("book", "x"), 1 := Pane("book", "y")]
  {
    var h0 := NewHub(1);
    assert Run(h0, []) && Final(h0, []) == h0;
    ReachableStep(1, h0, Attach(0, "book", "x"));
    var h1 := Apply(h0, Attach(0, "book", "x"));
    ReachableInv(1, h1);
    assert OnPane(h1.calls, 0) == {};
    var h2 := RegisteredOn(1, h1, "book", 0, 0);
    ReachableStep(1, h2, Attach(1, "book", "y"));
    h := Apply(h2, Attach(1, "book", "y"));
  }

  /** It happens: one call on the replaced pane and one on its successor, under a limit of one. */
  lemma AWorkbookCanExceedTheLimit() returns (h: Hub)
    ensures Reachable(1, h) && |OnWorkbook(h, "book")| == 2
  {
    var t := ReplacedWhileBusy();
    ReachableInv(1, t);
    assert OnPane(t.calls, 1) == {};
    h := RegisteredOn(1, t, "book", 1, 1);
    BothCalls(h);
  }
}

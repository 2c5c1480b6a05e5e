/**
  The lifecycle of one async subagent run (AgentRun in
  internal/agent/agent_runs.go) and of its `done` channel. Channels are
  generation numbers: beginResume installs a new generation.

  The status change and the close of `done` are two steps, because closeDone runs
  after the run's mutex is released. A completed call makes both; the race model
  below lets other calls in between.
*/
module RunLifecycle {

  datatype Status = Running | Done | Failed | Cancelled | Queued

  predicate IsActive(s: Status) {
    s.Running? || s.Queued?
  }

  predicate IsTerminal(s: Status) {
    s.Done? || s.Failed? || s.Cancelled?
  }

  datatype Run = Run(
    status: Status,
    result: string,
    err: string,
    done: nat,           // the current done channel
    onceFired: bool,     // doneOnce
    closed: set<nat>)    // every done channel that has been closed

  const New := Run(Running, "", "", 0, false, {})

  datatype Op =
    | FinishOK(result: string)
    | FinishErr(err: string)
    | TryCancel
    | MarkQueued
    | BeginExecution
    | BeginResume

  /** The part of each method that runs under the run's mutex. */
  function Locked(r: Run, op: Op): Run {
    match op
    case FinishOK(res) => if r.status.Running? then r.(status := Done, result := res) else r
    case FinishErr(e) => if r.status.Running? then r.(status := Failed, err := e) else r
    case TryCancel => if IsActive(r.status) then r.(status := Cancelled, err := "cancelled") else r
    case MarkQueued => if r.status.Running? then r.(status := Queued) else r
    case BeginExecution => if r.status.Queued? then r.(status := Running) else r
    case BeginResume =>
      if r.status.Cancelled? || r.status.Done? then r.(status := Running, done := r.done + 1, onceFired := false) else r
  }

  /** Whether the method goes on to closeDone after unlocking. */
  predicate Closes(r: Run, op: Op) {
    match op
    case FinishOK(_) => r.status.Running?
    case FinishErr(_) => r.status.Running?
    case TryCancel => IsActive(r.status)
    case _ => false
  }

  function CloseDone(r: Run): Run {
    if r.onceFired then r else r.(onceFired := true, closed := r.closed + {r.done})
  }

  /** One completed call. */
  function Do(r: Run, op: Op): Run {
    var t := Locked(r, op);
    if Closes(r, op) then CloseDone(t) else t
  }

  /** The answer of beginExecution and beginResume. */
  predicate Accepts(r: Run, op: Op) {
    match op
    case BeginExecution => IsActive(r.status)
    case BeginResume => r.status.Cancelled? || r.status.Done?
    case _ => true
  }

  function DoAll(r: Run, ops: seq<Op>): Run
    decreases |ops|
  {
    if ops == [] then r else DoAll(Do(r, ops[0]), ops[1..])
  }

  ghost predicate ClosedIffTerminal(r: Run) {
    r.done in r.closed <==> IsTerminal(r.status)
  }

  /** Exactly the channels of finished cycles are closed, each by the once that fired. */
  ghost predicate Inv(r: Run) {
    && ClosedIffTerminal(r)
    && r.onceFired == IsTerminal(r.status)
    && (forall g :: g in r.closed ==> g <= r.done)
    && (forall g | 0 <= g < r.done :: g in r.closed)
  }

  // ----- Completed calls

  /** Over any sequence of completed calls the current channel is closed iff the run has finished. */
  lemma {:induction false} CallsKeepInv(r: Run, ops: seq<Op>)
    requires Inv(r)
    ensures Inv(DoAll(r, ops)) && r.closed <= DoAll(r, ops).closed && r.done <= DoAll(r, ops).done
    decreases |ops|
  {
    if ops != [] {
      CallsKeepInv(Do(r, ops[0]), ops[1..]);
    }
  }

  predicate NoResume(ops: seq<Op>) {
    forall i | 0 <= i < |ops| :: !ops[i].BeginResume?
  }

  /** The first terminal transition of a cycle fixes the outcome until a resume. */
  lemma {:induction false} FirstOutcomeStands(r: Run, ops: seq<Op>)
    requires IsTerminal(r.status) && NoResume(ops)
    ensures DoAll(r, ops) == r
    decreases |ops|
  {
    if ops != [] {
      FirstOutcomeStands(r, ops[1..]);
    }
  }

  /** Failed is absorbing: not even a resume leaves it. */
  lemma {:induction false} FailedIsFinal(r: Run, ops: seq<Op>)
    requires r.status.Failed?
    ensures DoAll(r, ops) == r
    decreases |ops|
  {
    if ops != [] {
      FailedIsFinal(r, ops[1..]);
    }
  }

  lemma {:induction false} LastCall(r: Run, ops: seq<Op>)
    requires ops != []
    ensures DoAll(r, ops) == Do(DoAll(r, ops[..|ops| - 1]), ops[|ops| - 1])
    decreases |ops|
  {
    if |ops| == 1 {
      assert ops[..0] == [] && ops[1..] == [];
    } else {
      LastCall(Do(r, ops[0]), ops[1..]);
      assert ops[..|ops| - 1][0] == ops[0] && ops[..|ops| - 1][1..] == ops[1..][..|ops| - 2];
    }
  }

  /** Call i ended the cycle: it found the run active, and what it recorded stands since. */
  ghost predicate EndedBy(r: Run, ops: seq<Op>, i: nat) {
    && i < |ops|
    && (forall k | i < k <= |ops| :: DoAll(r, ops[..k]) == DoAll(r, ops))
    && var (before, after) := (DoAll(r, ops[..i]), DoAll(r, ops));
       match ops[i]
       case FinishOK(result) => before.status.Running? && after.status.Done? && after.result == result
       case FinishErr(err) => before.status.Running? && after.status.Failed? && after.err == err
       case TryCancel => IsActive(before.status) && after.status.Cancelled? && after.err == "cancelled"
       case _ => false
  }

  lemma StillEnded(r: Run, ops: seq<Op>, i: nat)
    requires ops != [] && EndedBy(r, ops[..|ops| - 1], i) && DoAll(r, ops) == DoAll(r, ops[..|ops| - 1])
    ensures EndedBy(r, ops, i)
  {
    var init := ops[..|ops| - 1];
    forall k | i < k <= |ops|
      ensures DoAll(r, ops[..k]) == DoAll(r, ops)
    {
      assert k < |ops| ==> ops[..k] == init[..k];
      assert k == |ops| ==> ops[..k] == ops;
    }
    assert ops[..i] == init[..i];
  }

  /** The outcome of a finished run is the argument of the call that ended its cycle. */
  lemma {:induction false} OutcomeHasItsCall(r: Run, ops: seq<Op>) returns (i: nat)
    requires !IsTerminal(r.status) && IsTerminal(DoAll(r, ops).status)
    ensures EndedBy(r, ops, i)
  {
    var n := |ops| - 1;
    LastCall(r, ops);
    if IsTerminal(DoAll(r, ops[..n]).status) {
      i := OutcomeHasItsCall(r, ops[..n]);
      StillEnded(r, ops, i);
    } else {
      i := n;
      assert ops[..n + 1] == ops;
    }
  }

  /** Only a cancelled or completed run resumes, and it resumes with a fresh open channel. */
  lemma ResumeStartsFreshCycle(r: Run)
    requires Inv(r)
    ensures var t := Do(r, BeginResume);
            if Accepts(r, BeginResume) then
              && t.status.Running?
              && t.done !in r.closed && t.done != r.done
              && t.closed == r.closed && r.done in t.closed
              && t.result == r.result && t.err == r.err
            else t == r
  {
  }

  /** A run that was cancelled while it waited never starts executing. */
  lemma {:induction false} CancelledWhileQueuedNeverRuns(r: Run, ops: seq<Op>)
    requires r.status.Queued? && NoResume(ops)
    ensures var t := DoAll(Do(r, TryCancel), ops);
            t.status.Cancelled? && t.err == "cancelled" && !Accepts(t, BeginExecution)
  {
    FirstOutcomeStands(Do(r, TryCancel), ops);
  }

  // ----- Calls that interleave

  /** A run with threads that have changed its status and not reached closeDone yet. */
  datatype Racing = Racing(run: Run, closers: nat)

  datatype Step = Lock(op: Op) | Close

  predicate Enabled(s: Racing, e: Step) {
    e.Close? ==> s.closers > 0
  }

  function Apply(s: Racing, e: Step): Racing
    requires Enabled(s, e)
  {
    match e
    case Lock(op) => Racing(Locked(s.run, op), s.closers + if Closes(s.run, op) then 1 else 0)
    case Close => Racing(CloseDone(s.run), s.closers - 1)
  }

  /** Let every late closer finish. */
  function Drain(s: Racing): Run
    decreases s.closers
  {
    if s.closers == 0 then s.run else Drain(Apply(s, Close))
  }

  /** What holds between the halves of a call, as long as no resume comes too early. */
  ghost predicate RaceInv(s: Racing) {
    && s.closers <= 1
    && (s.run.done in s.run.closed <==> s.run.onceFired)
    && (s.run.onceFired ==> s.closers == 0)
    && (s.run.onceFired || s.closers == 1 <==> IsTerminal(s.run.status))
    && (forall g :: g in s.run.closed ==> g <= s.run.done)
  }

  lemma DrainClosesOnce(s: Racing)
    ensures Drain(s) == if s.closers == 0 then s.run else CloseDone(s.run)
    decreases s.closers
  {
    if s.closers > 0 {
      DrainClosesOnce(Apply(s, Close));
    }
  }

  /**
    Channel and status agree once every closer under way has finished: the channel is
    closed if and only if the run has. In a state without closers that is the state.
  */
  ghost predicate Settles(s: Racing) {
    ClosedIffTerminal(Drain(s))
  }

  /** A resume that succeeds before the old done channel is closed. */
  predicate EarlyResume(s: Racing, e: Step) {
    e == Lock(BeginResume) && Accepts(s.run, BeginResume) && s.run.done !in s.run.closed
  }

  lemma SettledWithoutClosers(s: Racing)
    requires s.closers == 0
    ensures Settles(s) <==> ClosedIffTerminal(s.run)
  {
  }

  /** Such a resume is the one step that brings channel and status apart. */
  lemma RaceStep(s: Racing, e: Step)
    requires RaceInv(s) && Enabled(s, e)
    ensures Settles(Apply(s, e)) <==> !EarlyResume(s, e)
    ensures !EarlyResume(s, e) ==> RaceInv(Apply(s, e))
  {
    DrainClosesOnce(Apply(s, e));
  }

  ghost predicate Interleaving(s: Racing, es: seq<Step>)
    decreases |es|
  {
    es == [] || (Enabled(s, es[0]) && Interleaving(Apply(s, es[0]), es[1..]))
  }

  ghost predicate AlwaysSettles(s: Racing, es: seq<Step>)
    requires Interleaving(s, es)
    decreases |es|
  {
    Settles(s) && (es == [] || AlwaysSettles(Apply(s, es[0]), es[1..]))
  }

  ghost predicate NoEarlyResume(s: Racing, es: seq<Step>)
    requires Interleaving(s, es)
    decreases |es|
  {
    es == [] || (!EarlyResume(s, es[0]) && NoEarlyResume(Apply(s, es[0]), es[1..]))
  }

  lemma RaceInvSettles(s: Racing)
    requires RaceInv(s)
    ensures Settles(s)
  {
    DrainClosesOnce(s);
  }

  /**
    Over whole interleavings: in every state the closers under way leave the channel
    closed exactly when the run has finished, if and only if every resume waited for
    the old channel to be closed.
  */
  lemma {:induction false} InStepIffNoEarlyResume(s: Racing, es: seq<Step>)
    requires RaceInv(s) && Interleaving(s, es)
    ensures AlwaysSettles(s, es) <==> NoEarlyResume(s, es)
    decreases |es|
  {
    RaceInvSettles(s);
    if es != [] {
      RaceStep(s, es[0]);
      if !EarlyResume(s, es[0]) {
        InStepIffNoEarlyResume(Apply(s, es[0]), es[1..]);
      }
    }
  }

  /**
    closeDone runs outside the mutex, so it can hit the channel of the next cycle. A
    resumed run keeps an open channel exactly when the old one was closed when
    beginResume took the lock: waiting on Done() first is enough, and is needed.
  */
  lemma ResumeIsSafeIffDoneWasClosed(s: Racing)
    requires RaceInv(s) && Accepts(s.run, BeginResume)
    ensures var after := Drain(Apply(s, Lock(BeginResume)));
            && after.status.Running?
            && (after.done !in after.closed <==> s.run.done in s.run.closed)
  {
    DrainClosesOnce(Apply(s, Lock(BeginResume)));
  }

  /** The run in which it happens: cancel, resume before the canceller closes, then the late close. */
  lemma LateCloseExample()
    ensures var s0 := Racing(New, 0);
            var s1 := Apply(s0, Lock(TryCancel));
            var s2 := Apply(s1, Lock(BeginResume));
            var s3 := Apply(s2, Close);
            && RaceInv(s0) && RaceInv(s1) && EarlyResume(s1, Lock(BeginResume))
            && s3.run.status.Running? && s3.run.done in s3.run.closed
  {
    assert 0 !in New.closed;
    var s1 := Apply(Racing(New, 0), Lock(TryCancel));
    assert RaceInv(s1);
    var s2 := Apply(s1, Lock(BeginResume));
    var s3 := Apply(s2, Close);
    assert s3.run.closed == {1};
  }
}

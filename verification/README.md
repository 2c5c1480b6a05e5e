# Verification of the agent runtime and the Excel bridge

A Dafny model of the concurrent and state-changing parts of the Go agent runtime
(`internal/agent`) and of the Excel bridge (`excel-addin/bridge`), with proofs of
what their comments and tests promise. `dafny verify dfyconfig.toml` checks it.

- `Limiter`, `Slots`, `SlotRuns`, `Chain`: the shared concurrency limiter, the slot an
  agent gives back while it waits for its own child, the runs in which one is left over,
  and a whole chain of such waits. Each critical section is one atomic step; channel generations are numbers.
- `RunLifecycle`, `AgentRuns`: the life of one run with its done channel, and
  CancelAll over a graph of registries, runs and agents that may have cycles.
- `Hub`, `HubAnswers`, `HubWorkbooks`: panes and calls of the Excel relay, as interleaved
  steps and as the object, what calls return told from the events, and the limit per
  workbook.
- `Json`, `JsonText`, `JsonCanon`, `LengthPrefix`, `JsonKeys`, `DispatchKey`: the
  validator, the canonical text and the length-prefixed keys that decide which tool
  calls and dispatches are the same.
- `ToolRound`, `Rounds`, `StepRound`, `Orphans`, `AgentStep`: the tool-call round of
  Step with every cancellation exit, the recovery of unanswered calls, and Step.
- `Selection`, `TranscriptFit`, `StateSize`, `FullState`: transcript scoring with its
  cache, the binary search that replaces a greedy loop, and the sizes it searches in.
- `Shot`, `Window`, `Glob`: screenshot masking, the doubling message window and the
  translation of glob patterns to regular expressions.
- `Wrappers`: Option, Result and index lists.

Protocols are step machines over pure states; next to each stands a class with the
source's fields whose methods are proved to make exactly those steps. Loops over
slices and arrays are methods proved against specification functions.

Where the code and its own words differ, the code is modelled:

- The comments pair every stored slot with one deferred release, and there are two ways
  around it. (1) An agent finishes while its own nested call goes on and is resumed with
  its fields as they are; the slot it takes back when that call ends overwrites the slot
  of the second dispatch, which is never returned (`SlotRuns.EarlyResumeLosesASlot`,
  `SlotProtocol.LostForever`). Lowering the limit to the number of lost slots then shuts
  everybody out (`StarvedForever`); a constant limit keeps one (`ConstantLimitKeepsOne`).
  An agent's claims stay apart and nothing is overwritten, in every state of a run, if
  and only if no agent is dispatched while it has a slot, a pending reacquire or an
  acquire in flight (`SlotsApartIffNoEarlyDispatch`). (2) Without any early dispatch, the
  slot taken back for a nested call that outlives the dispatch is stored after the
  deferred release (`StoredAfterFinish`). Left alone, an agent is without a slot for good after
  its last deferred release if and only if no reacquire is pending then and no acquire in
  flight for it can still succeed (`NoSlotAfterFinishIff`).
- A forced release misses a slot that has been acquired for the run and not stored yet
  (`ForceCanMissASlot`). A slot taken back after nested calls is always stored afterwards
  (`OnlyAStoreEndsAReacquire`); the slot of a dispatch is stored or, when it was cancelled
  meanwhile, released at once. Counted at lock granularity, the limiter's holders also
  include slots whose release has not run.
- A run's close of its done channel happens after the run's mutex is released. A resume
  that gets in between has its fresh channel closed by the late closer
  (`RunLifecycle.ResumeIsSafeIffDoneWasClosed`: it is safe if and only if the old channel
  was closed, so a caller waits on Done() first).
- The search for the number of messages to drop assumes that dropping never grows the
  state. The first drop adds transcript_selection, which is larger than a short message,
  so a state that fits may lose messages for nothing (`StateSize.FitIsGreedyIff` says
  exactly when, `FullState.SomeChainLosesMessages` gives transcripts for any other fields).
- The hub's comment says a replaced pane's in-flight calls fail. A call that resolved
  the pane earlier and registers after failPane stays pending until Call itself sees the
  pane gone or gives up (`HubProtocol.ACallCanRegisterLate`); no other call does
  (`HubProtocol.OnlyLateCallsOutliveTheirPane`).
- MaxInFlight is documented as a limit per workbook and counted per pane, so a workbook
  whose pane was replaced can exceed it (`HubWorkbooks.WorkbookWithinLimitIff` says when).
- A star in a permission pattern is documented to match any text; it does not match a
  line break (`Glob.NewlineIsNotMatched`). A pattern of two double quotes is empty only
  after quotes are stripped, and then matches the empty command only.

## Model

| member | source | states |
|---|---|---|
| LimiterProtocol.RunKeepsInv | internal/agent/agent_runs.go:453-556 | Over every interleaving of enters, attempts, releases, cancellations and limit changes: holders counts the calls holding a slot, queued counts the waiters, and no wake-up is lost (a waiter on the live channel implies a positive limit that is reached) |
| LimiterProtocol.StepKeepsInv | internal/agent/agent_runs.go:461-556 | Each critical section keeps that invariant |
| LimiterProtocol.EveryRunAccounts | internal/agent/agent_runs.go:453-556 | The same accounting for every run of a new limiter; a nil channel means no limit and nobody parked |
| LimiterProtocol.ReleaseNeverClamps | internal/agent/agent_runs.go:519-527 | The guard on holders in a release is never needed, and a second release of one closure does nothing |
| LimiterProtocol.AdmissionRespectsLimit | internal/agent/agent_runs.go:512-517 | An admission takes one slot, ends unlimited or within the limit, and never admits a cancelled call |
| LimiterProtocol.RoomWakesEveryWaiter | internal/agent/agent_runs.go:504-542 | While there is room every parked call is runnable, and its next pass admits it unless it was cancelled |
| LimiterProtocol.StuckOnlyBehindAHolder | internal/agent/agent_runs.go:494-556 | A parked call that cannot run has a real holder before it, and that release or any limit change makes every waiter runnable |
| LimiterProtocol.LimitBrokenOnlyByShrinking | internal/agent/agent_runs.go:461-469 | From within the limit, a step ends above it if and only if it sets a positive limit below the current holders |
| LimiterProtocol.ConstantLimitHolds | internal/agent/agent_runs.go:494-529 | Without limit changes no interleaving exceeds the limit |
| LimiterProtocol.ExcessOnlyDrains | internal/agent/agent_runs.go:494-529 | After a shrink the excess never grows until it is gone |
| LimiterProtocol.CancelledNeverHolds | internal/agent/agent_runs.go:494-543 | A call cancelled before it holds a slot never holds one, whatever runs later |
| LimiterProtocol.ConcurrencyLimiter.SetLimit | internal/agent/agent_runs.go:461-469 | setMax as an atomic step of the protocol, negative limits read as none |
| LimiterProtocol.ConcurrencyLimiter.BroadcastLocked | internal/agent/agent_runs.go:549-556 | Every generation captured before is closed afterwards and the new one is open, so from a consistent state every parked call is runnable |
| LimiterProtocol.ConcurrencyLimiter.Pass | internal/agent/agent_runs.go:504-534 | One pass of the waiting loop is the protocol step Attempt |
| LimiterProtocol.ConcurrencyLimiter.RunRelease | internal/agent/agent_runs.go:518-528 | The once-guarded release closure is the protocol step Release |
| LimiterProtocol.ConcurrencyLimiter.AcquireCancellable | internal/agent/agent_runs.go:494-543 | The whole waiting loop among other threads is a run of the protocol that ends refused, holding or still counted as a waiter; at each look a call that can make its pass makes it at once |
| SlotProtocol.RunKeepsInv | internal/agent/agent.go:6472-6536 | Over every interleaving of dispatches, resumes of the same agent, pauses, reacquires, stores and forced releases, early resumes included: tokens stay distinct and holders equals stored plus acquired-not-stored plus taken-not-returned plus overwritten slots, and an overwritten slot stays so |
| SlotProtocol.StepKeepsInv | internal/agent/agent.go:6472-6536 | Each section split at the lock boundaries keeps that invariant |
| SlotProtocol.EveryRunCountsSlots | internal/agent/agent.go:6472-6536 | That equation for every run from the start |
| SlotProtocol.SlotsApartIffNoEarlyDispatch | internal/agent/agent.go:6472-6536 | Over a whole run each agent has at most one of slot, pending reacquire and acquire in flight and no slot is lost, if and only if no agent is dispatched or resumed while it still has one of them |
| SlotProtocol.StepKeepsApartIff | internal/agent/subagent.go:748-812 | The one step that brings two claims of an agent together is a dispatch of an agent that still has one |
| SlotRuns.EarlyResumeLosesASlot | internal/agent/subagent.go:1122-1138 | The code does reach it, under a limit of two: an agent finishes while its own nested call is still out (wait_timeout_seconds), is resumed and stores a slot, and the slot taken back when the nested call ends overwrites it |
| SlotRuns.StarvedForever | internal/agent/agent_runs.go:494-529 | Once as many slots are lost as a positive limit allows, no run without a limit change ever admits another call |
| SlotRuns.StarvedPool | internal/agent/agent_runs.go:461-469 | Such a state is reachable: nobody holds a slot, nothing is under way, and a limit of one is used up |
| SlotRuns.ConstantLimitKeepsOne | internal/agent/agent_runs.go:494-529 | Under a constant limit early resumes can use up all slots but one and never the last |
| SlotRuns.NoSlotAfterFinishIff | internal/agent/agent.go:6488-6536 | After any run that ends with the deferred release of a dispatch, no continuation in which the agent is neither dispatched nor released for gives it a slot, if and only if at that release no reacquire is pending and no acquire in flight for it can still succeed |
| SlotRuns.StoredAfterFinish | internal/agent/subagent.go:1122-1138 | A slot is left over without any early dispatch: it is taken back for a nested call that outlives the dispatch and stored after the deferred release found nothing |
| SlotRuns.StoppedAcquireEnds | internal/agent/subagent.go:957-990 | An acquire that is stopped before it is admitted can end at once, and ends without a slot |
| SlotProtocol.LostForever | internal/agent/agent.go:6510-6516 | An overwritten slot is never returned, whatever runs later: the limiter counts it for good |
| SlotProtocol.TimelyRunsConserveSlots | internal/agent/agent.go:6472-6536 | Without early dispatches every slot is stored, in flight or about to be returned |
| SlotProtocol.StoreNeverOverwrites | internal/agent/agent.go:6505-6520 | Without early dispatches a store always finds the slot field empty |
| SlotProtocol.OnlyAStoreEndsAReacquire | internal/agent/agent.go:6499-6516 | A slot taken back after nested calls stays acquired under every run until it is stored, so no forced release in between returns it |
| SlotRuns.ForceCanMissASlot | internal/agent/agent_runs.go:345-361 | A reachable run in which the forced release comes between the acquire and the store and misses the slot, which is there afterwards |
| SlotProtocol.AgentSlot.PauseForNestedCall | internal/agent/agent.go:6476-6487 | The first nested call gives the slot back and marks the reacquire |
| SlotProtocol.AgentSlot.ResumeAfterNestedCall | internal/agent/agent.go:6488-6498 | Only the last returning nested call asks for the slot again |
| SlotProtocol.AgentSlot.SetOwnSlot | internal/agent/agent.go:6514-6521 | Storing a release closure is the protocol step Store |
| SlotProtocol.AgentSlot.ReleaseOwnSlot | internal/agent/agent.go:6525-6536 | Taking the closure out is the protocol step Force |
| NestedChain.ChainCompletes | internal/agent/agent.go:506-517 | A linear chain of any depth under any limit of at least one runs to its leaf and back without ever holding two slots, and ends with every slot returned |
| NestedChain.NeverBlocked | internal/agent/agent.go:6461-6509 | In every position of the chain the next step of the code is enabled, keeps the position invariant and lowers a rank |
| NestedChain.AtMostOneSlot | internal/agent/agent.go:6461-6509 | The chain as a whole holds at most one slot |
| NestedChain.RunsToTheEnd | internal/agent/agent.go:6461-6509 | From every legal position there is a run to the end within one slot |
| RunLifecycle.CallsKeepInv | internal/agent/agent_runs.go:300-421 | Over any sequence of completed lifecycle calls the current done channel is closed if and only if the status is terminal, and exactly the channels of finished cycles are closed |
| RunLifecycle.FirstOutcomeStands | internal/agent/agent_runs.go:300-343 | Until a resume the first terminal transition fixes status, result and error |
| RunLifecycle.OutcomeHasItsCall | internal/agent/agent_runs.go:300-343 | Over any sequence of completed calls the outcome of a finished run is the argument of the call that ended its cycle, which found the run active, and stands since |
| RunLifecycle.FailedIsFinal | internal/agent/agent_runs.go:408-413 | Failed is absorbing |
| RunLifecycle.ResumeStartsFreshCycle | internal/agent/agent_runs.go:408-421 | Only a cancelled or completed run resumes; it gets a new open channel and no old one reopens |
| RunLifecycle.CancelledWhileQueuedNeverRuns | internal/agent/agent_runs.go:330-388 | A run cancelled while queued is never accepted for execution |
| RunLifecycle.RaceStep | internal/agent/agent_runs.go:158-164 | With the close outside the mutex, channel and status come apart in exactly one kind of step: a resume that succeeds before the old done channel is closed |
| RunLifecycle.InStepIffNoEarlyResume | internal/agent/agent_runs.go:300-421 | Over whole interleavings the closers under way leave the channel closed exactly when the run has finished, if and only if every resume finds the old channel closed |
| RunLifecycle.ResumeIsSafeIffDoneWasClosed | internal/agent/agent_runs.go:408-421 | A resumed run keeps an open channel if and only if the old done channel was closed when it took the lock, so waiting on Done() first is enough and is needed |
| RunLifecycle.LateCloseExample | internal/agent/agent_runs.go:330-343 | The concrete run in which a late close hits the next cycle |
| AgentRuns.AgentRun.FinishWithResult | internal/agent/agent_runs.go:300-311 | finishOK is the completed call of the lifecycle model |
| AgentRuns.AgentRun.FinishWithError | internal/agent/agent_runs.go:313-324 | finishErr likewise |
| AgentRuns.AgentRun.TryFinishCancelled | internal/agent/agent_runs.go:330-343 | tryFinishCancelled likewise |
| AgentRuns.AgentRun.MarkAsQueued | internal/agent/agent_runs.go:365-371 | markQueued likewise |
| AgentRuns.AgentRun.StartExecution | internal/agent/agent_runs.go:377-388 | beginExecution likewise, with its answer |
| AgentRuns.AgentRun.StartResume | internal/agent/agent_runs.go:408-421 | beginResume likewise, with its answer |
| AgentRuns.AgentRunRegistry.CancelAll | internal/agent/agent_runs.go:858-893 | On any finite graph, cycles included: it ends, visits each registry once, and afterwards no run of a registry reachable by any path is running or queued; runs that were terminal are unchanged and cancelled runs hold no slot |
| AgentRuns.AgentRunRegistry.CancelFrom | internal/agent/agent_runs.go:862-893 | The recursive walk with its visited set: the same for everything reached from one registry |
| AgentRuns.AgentRunRegistry.CancelLevel | internal/agent/agent_runs.go:868-883 | One registry: its active runs are cancelled, stopped and their slots returned |
| AgentRuns.AgentRunRegistry.CancelOwned | internal/agent/agent_runs.go:817-836 | Only the owner may cancel; an unknown or foreign task changes nothing |
| AgentRuns.ClosedSetHoldsPaths | internal/agent/agent_runs.go:862-893 | A visited set closed under child registries holds everything reachable by a path |
| AgentRuns.CancelOneWalks | internal/agent/agent_runs.go:874-883 | Cancelling one run changes only an active run, and returns its stored slot |
| AgentRuns.LevelDone | internal/agent/agent_runs.go:862-893 | A finished level plus its finished children is a finished walk |
| HubProtocol.RunKeepsInv | excel-addin/bridge/hub.go:119-324 | Over every interleaving of the locked sections and sends the per-call, per-pane and per-workbook invariants hold |
| HubProtocol.StepKeepsInv | excel-addin/bridge/hub.go:119-324 | Each section keeps them |
| HubProtocol.AtMostOneResult | excel-addin/bridge/hub.go:146-159 | Over every interleaving a call is sent at most one result |
| HubProtocol.SendsNeverBlock | excel-addin/bridge/hub.go:308-324 | Every send finds the buffer of its channel empty and its call already taken out of the table |
| HubProtocol.AnswersAreTheCallsOwn | excel-addin/bridge/hub.go:278-281 | A posted result that Call returns carries its own id and was posted under its pane workbook |
| HubAnswers.AnswersHaveTheirEvent | excel-addin/bridge/hub.go:251-324 | Over whole runs, from the events: what Call returns was posted for it, content included, while it was pending on a pane of that workbook, or its own pane was failed while it was pending |
| HubAnswers.DeliveredIsTheAnswer | excel-addin/bridge/hub.go:308-324 | A call taken by a posted result can be answered with that result only |
| HubAnswers.ReceivedIsAnswered | excel-addin/bridge/hub.go:278-295 | A call that receives stays answered, one that drops has given up for good |
| HubAnswers.OpenCallsCanEnd | excel-addin/bridge/hub.go:265-304 | An unfinished call can always return within two of its own steps |
| HubAnswers.PanesGoInOrder | excel-addin/bridge/hub.go:125-159 | A finished pane has had its calls failed, and a registered pane has been neither failed nor finished |
| HubAnswers.SawAFinishedPane | excel-addin/bridge/hub.go:265-275 | A call is told that its pane is gone only once that pane is finished |
| HubAnswers.EvictedIffAnotherInstance | excel-addin/bridge/hub.go:125-133 | Over any run a finished pane was given the eviction reason if and only if the Attach that displaced it finished it first and comes from another instance |
| HubProtocol.ReturnedCallsAreGone | excel-addin/bridge/hub.go:251-295 | Once Call has returned its id is not pending |
| HubProtocol.PanesWithinLimit | excel-addin/bridge/hub.go:258-264 | In every reachable state each pane has at most MaxInFlight pending calls |
| HubWorkbooks.WorkbookWithinLimitIff | excel-addin/bridge/hub.go:105-106 | The documented limit per workbook: as long as nobody attaches to it, its pending calls stay within MaxInFlight in every continuation, if and only if no call is pending or about to register on a pane of it other than the registered one |
| HubWorkbooks.AWorkbookCanExceedTheLimit | excel-addin/bridge/hub.go:239-264 | A reachable state with two calls on one workbook under a limit of one, one on the replaced pane and one on its successor |
| HubProtocol.LateDetachKeepsSuccessor | excel-addin/bridge/hub.go:134-142 | The late detach of a replaced pane leaves the registrations alone |
| HubProtocol.EvictionReasonIsTrue | excel-addin/bridge/hub.go:125-133 | The eviction reason is delivered only to a pane displaced by a different instance on its workbook |
| HubProtocol.FinishesOnce | excel-addin/bridge/hub.go:70-78 | A finished pane keeps what its done channel got, whatever runs later |
| HubProtocol.NobodyWaitsForNothing | excel-addin/bridge/hub.go:251-304 | In every reachable state a registered call that is not late and whose pane has been failed is answered, has given up, or has a result owed or buffered; if it still waits it can receive at the latest after that send |
| HubProtocol.OnlyLateCallsOutliveTheirPane | excel-addin/bridge/hub.go:251-264 | A call is still pending on a pane whose failPane has run if and only if it registered after it |
| HubProtocol.ACallCanRegisterLate | excel-addin/bridge/hub.go:252-264 | Such a call is reachable, so the promise that a replaced pane fails all its calls does not cover it |
| HubProtocol.RelayHub.AttachLocked | excel-addin/bridge/hub.go:121-124 | Registration under the lock is the protocol step Attach |
| HubProtocol.RelayHub.DetachLocked | excel-addin/bridge/hub.go:135-139 | Unregistering only the own pane is the step Unregister |
| HubProtocol.RelayHub.FailPaneLocked | excel-addin/bridge/hub.go:147-155 | The loop over the calls is the step FailPane |
| HubProtocol.RelayHub.InFlight | excel-addin/bridge/hub.go:239-247 | The counting loop returns the number of calls pending on the pane |
| HubProtocol.RelayHub.RegisterLocked | excel-addin/bridge/hub.go:258-264 | Count and register in one section is the step Register |
| HubProtocol.RelayHub.DropLocked | excel-addin/bridge/hub.go:291-295 | drop is the step Drop |
| HubProtocol.RelayHub.DeliverLocked | excel-addin/bridge/hub.go:309-321 | Deliver up to the unlock, with its answer |
| HubProtocol.RelayHub.ResolvePane | excel-addin/bridge/hub.go:207-225 | The named pane, or the only one |
| Json.AcceptsExactlyTheGrammar | internal/agent/agent_dedup.go:25-33 | The validator accepts a lexeme sequence if and only if it spells one value of the grammar of RFC 8259 without a name repeated at any depth; malformed input, trailing data and duplicates are the only refusals |
| Json.ValidateComplete | internal/agent/agent_dedup.go:51-93 | Every duplicate-free value is accepted where a value is asked for, consuming exactly its lexemes |
| Json.ValidateSound | internal/agent/agent_dedup.go:51-93 | Whatever is accepted is a duplicate-free value up to where the validator stopped |
| Json.TokenReader.ValidateValue | internal/agent/agent_dedup.go:51-93 | The recursion over the mutable decoder with its seen set computes the validator function |
| Json.TokenReader.Next | internal/agent/agent_dedup.go:52-55 | The token reader of the standard library as the validator uses it |
| JsonText.SpellIsInjective | internal/agent/agent_dedup.go:41-45 | The marshalled text determines its lexemes |
| JsonText.QuotedStringsAreUnique | internal/agent/agent_dedup.go:41-45 | Two escaped strings with equal text are equal and end at the same place |
| JsonText.NumbersAreUnique | internal/agent/agent_dedup.go:36-44 | Number literals are told apart by their text |
| JsonCanon.SameIffCanonEqual | internal/agent/agent_dedup.go:35-44 | Two values have the same canonical form if and only if they are the same JSON value (objects as finite maps, numbers by literal text) |
| JsonCanon.SortedIsUnique | internal/agent/agent_dedup.go:41-44 | Members in key order are determined by their lookups |
| JsonKeys.KeysMeanSameCall | internal/agent/agent_dedup.go:25-46 | Two keyable calls have equal keys if and only if they name the same tool and carry the same JSON value |
| JsonKeys.KeyableIffSpelled | internal/agent/agent_dedup.go:25-34 | A call has a key if and only if its arguments are well formed and duplicate-free |
| JsonKeys.MarshalIffSame | internal/agent/agent_dedup.go:35-45 | Marshalled texts are equal if and only if the values are the same |
| JsonKeys.ParseInverts | internal/agent/agent_dedup.go:35-40 | Decoding inverts the grammar |
| JsonKeys.FlattenIsClean | internal/agent/agent_dedup.go:41-45 | Marshalled lexemes never run two numbers together |
| JsonKeys.DuplicateToolCallIndices | internal/agent/agent_dedup.go:154-174 | Exactly the later copies of a call are rejected, each in favour of the least equal index, which is never rejected; the rejected indices ascend |
| LengthPrefix.DecodeInverts | internal/agent/agent_dedup.go:141-149 | A decoder gets every list of strings back from its key |
| LengthPrefix.LengthPrefixIsInjective | internal/agent/agent_dedup.go:141-149 | Equal keys mean equal lists |
| LengthPrefix.LengthPrefixedKey | internal/agent/agent_dedup.go:141-149 | The builder loop computes the encoding |
| DispatchKey.TaskKeysMeanSameWork | internal/agent/agent_dedup.go:113-139 | Two task keys are equal if and only if spec name, trimmed fields and flags agree and the trimmed dependencies agree as multisets |
| DispatchKey.AgentKeysMeanSameDispatch | internal/agent/agent_dedup.go:95-97 | Two agent keys are equal if and only if name, trimmed prompt and trimmed context agree |
| DispatchKey.ActiveTaskDispatchKey | internal/agent/agent_dedup.go:113-139 | Copy, trim in place, sort and encode compute that key |
| DispatchKey.SortIffPermutation | internal/agent/agent_dedup.go:120-124 | Sorted dependency lists agree if and only if the lists are permutations |
| DispatchKey.TrimRemovesOuterSpace | internal/agent/agent_dedup.go:96-134 | Trimming removes white space at both ends and nothing else |
| ToolRound.CancelledRoundAnswersOnce | internal/agent/agent.go:2408-2451 | With distinct non-empty ids a cancelled round, together with what was published before, answers each call once and nothing else |
| ToolRound.CancelledRoundHasNoOrphan | internal/agent/agent.go:2408-2451 | With any ids and any results no call with an id is left unanswered |
| ToolRound.CancelKeepsRealResults | internal/agent/agent.go:2367-2374 | Finished work keeps its result; an empty slot is answered as cancelled |
| Rounds.RoundAnswersEachCallOnce | internal/agent/agent.go:1886-2348 | However a round is left, each call of its message has exactly one tool message among what was published |
| Rounds.RoundPublishesNoEmptySlot | internal/agent/agent.go:2259-2289 | No empty slot is ever published |
| Rounds.RoundLeavesNoOrphan | internal/agent/agent.go:2351-2451 | With any ids no call is left without an answer |
| Rounds.RoundKeepsRealResults | internal/agent/agent.go:2367-2374 | Results of tools that ran survive every exit; calls that never ran get the placeholder |
| Rounds.EveryAskIsAnswered | internal/agent/agent.go:1886-2348 | In a whole transcript every message that asks for calls is answered right behind it |
| Rounds.OnlyTheLimitReplyIsExempt | internal/agent/agent.go:1751-1777 | The one exception is the reply at the step limit |
| StepRound.Agent.Cancel | internal/agent/agent.go:6652-6661 | Closes the current channel |
| StepRound.Agent.ResetCancellation | internal/agent/agent.go:6666-6676 | Swaps in a new open channel and leaves the captured one closed |
| StepRound.Agent.IsCancelled | internal/agent/agent.go:1635-1647 | A poll reads the channel captured at the start; among any cancels and resets it never reopens |
| StepRound.Agent.FinishCancelledRound | internal/agent/agent.go:2408-2451 | Its loops publish and emit exactly the tail of the specification |
| StepRound.Agent.SplitCalls | internal/agent/agent.go:1930-1986 | Each call that is not rejected is in exactly one list, in order, by the kind of its tool |
| StepRound.Agent.RunParallel | internal/agent/agent.go:2149-2209 | Workers in any order: each slot is filled with its own call or left empty behind a closed channel |
| StepRound.Agent.RunDag | internal/agent/agent.go:2107-2147 | The scheduler path leaves one message per call, its tool answer when it ran, and starts none behind a closed channel |
| StepRound.Agent.RunDagInvalid | internal/agent/agent.go:2108-2136 | A refused graph starts no subagent call and fails each with the error; the others run |
| StepRound.Agent.RunSequential | internal/agent/agent.go:2211-2246 | In order, each call directly after a poll that found the channel open, and nothing after one that found it closed; the slots hold what the tools answered |
| StepRound.Agent.FinalizeRejected | internal/agent/agent.go:2252-2274 | Each rejected slot gets a message of its own that carries the winner and its result |
| StepRound.Agent.PublishResults | internal/agent/agent.go:2277-2312 | In order, each result appended and emitted once and, with a listener, after a poll of its own, or the rest handed to the cancelled path |
| StepRound.Agent.Dispatch | internal/agent/agent.go:1930-2251 | Each start directly follows an open poll, behind a closed channel nothing starts; without a cancellation every dispatched slot holds what its tool answered (or what the scheduler says), a rejected call is never started and none is started twice |
| StepRound.Agent.Answer | internal/agent/agent.go:1930-2312 | The round: its outcome, what was emitted, why it stopped, where the group hand-off stands, and for every call that was not rejected what its slot holds: the answer of its tool, the error of a refused graph, or nothing |
| StepRound.Agent.Respond | internal/agent/agent.go:1886-1905 | Appends the message and answers it; when the first poll sees a cancellation nothing runs and the round is closed at once |
| StepRound.Agent.Turn | internal/agent/agent.go:1711-1826 | Once the captured channel is closed a turn does nothing; otherwise it ends Step for a stated reason or goes on with everything of the turn in the transcript |
| StepRound.Agent.PolledReply | internal/agent/agent.go:1827-1830 | A reply that comes in after a cancellation is dropped |
| StepRound.Agent.DrainQueue | internal/agent/agent.go:1731-1739 | Queued messages are appended and delivered in order |
| StepRound.Agent.Turns | internal/agent/agent.go:1711-2348 | The step loop leaves a transcript of answered rounds in which what the user queued, the model said and the advisor added stands in order and complete; each way out has its reason (captured channel closed, model failure, step limit, question to the user, final answer), and a final answer without review or a round with an open question does end it; a listener has seen all of it, but for the summary request and at most one message when cancelled |
| AgentStep.Step | internal/agent/agent.go:1625-2348 | The whole Step, orphan recovery included: the model sees the recovered transcript, the turns are those of the loop on the channel captured first, and a listener sees the recovered results before everything else |
| Orphans.InsertsExactlyTheOrphans | internal/agent/agent.go:7057-7076 | One result for each distinct unanswered id of the last asking message, for no other id |
| Orphans.InsertsBehindTheToolBlock | internal/agent/agent.go:7080-7103 | The results stand directly behind the existing tool block; all other messages keep their order |
| Orphans.RecoveryIsIdempotent | internal/agent/agent.go:7044-7104 | A second recovery finds nothing to do |
| Orphans.ClosedRoundsAreLeftAlone | internal/agent/agent.go:2362-2365 | A transcript whose last asking message went through a round, cancelled at any point and with any ids, is returned unchanged |
| Orphans.IdentityWhenAllAnswered | internal/agent/agent.go:7070-7076 | Nothing missing, nothing changed |
| Orphans.RecoverOrphanedToolCalls | internal/agent/agent.go:7044-7104 | The loops compute the recovered transcript, whatever the calls return and whoever cancels meanwhile, and emit each result once |
| Orphans.LimitReplyRunsNext | internal/agent/agent.go:1751-1777 | The calls of the reply at the step limit, which nobody executes there, are exactly the orphans of the next Step, in order and once each, if and only if their ids are distinct, not empty and unanswered before |
| Orphans.NextStepAnswersEveryAsk | internal/agent/agent.go:7044-7104 | With that the exemption ends: after the recovery of the next Step every asking message of the transcript with proper ids is answered right behind it |
| Selection.SelectTranscript | internal/agent/autocontinue_select_typesafe.go:150-171 | At or under 20 messages everything is kept and the cache untouched; over it the kept messages are, in order, the original request and the last reply, pinned and unscored, and every other message that the judge does not put below 0.5 and that is not among the oldest beyond 160; an error leaves the cache untouched |
| Selection.ScoreSelected | internal/agent/autocontinue_select_typesafe.go:179-285 | It succeeds if and only if the backend does; a failed or stopped selection leaves the cache unchanged; a successful one gives every message the verdict of the judge or leaves out the oldest beyond the ceiling, and remembers every score |
| Selection.WarmEqualsCold | internal/agent/autocontinue_select_typesafe.go:67-105 | With at most 160 unpinned messages a warm selection equals a cold one; beyond that they agree on every message the cold one scores |
| Selection.WarmLeavesOutNoMore | internal/agent/autocontinue_select_typesafe.go:206-217 | What a warm selection leaves out, a cold one leaves out |
| Selection.ScoreCache.Store | internal/agent/autocontinue_select_typesafe.go:84-94 | Entries stay what the judge says in their scope and never exceed 2000; another scope or an overflow starts afresh |
| Selection.ScoreCache.Lookup | internal/agent/autocontinue_select_typesafe.go:73-81 | In a faithful cache a hit is what the judge says of every message with that key under that request and reply; another scope or an unknown key misses |
| Selection.ScoreCache.Clear | internal/agent/autocontinue_select_typesafe.go:97-102 | Emptying keeps the cache faithful |
| Selection.KeyTellsRoleAndContent | internal/agent/autocontinue_select_typesafe.go:112-117 | Equal keys mean equal roles and equal trimmed contents, for roles without a NUL |
| Selection.FreshIsFaithful | internal/agent/autocontinue_select_typesafe.go:268-283 | Scores found in one selection are the answers of the judge for that scope |
| Selection.JudgeBatch | internal/agent/relevance_typesafe.go:66-111 | A batch fails as a whole or answers each message: no answer keeps it unscored, a score keeps it from 0.5 up |
| Selection.RunBatches | internal/agent/autocontinue_select_typesafe.go:228-267 | It succeeds if and only if nobody stopped the agent before a launch or at the end and every batch was answered at the first attempt or the one retry |
| Selection.SplitBatches | internal/agent/autocontinue_select_typesafe.go:227-230 | Consecutive batches of at most 20, at most 8 of them under the ceiling |
| TranscriptFit.Fit | internal/agent/autocontinue_select_typesafe.go:347-392 | The result drops the prefix of the drop order that the search finds; pinned and unscored messages are in it; it fits or only they are left; when dropping never grows the state it equals the greedy loop; it fails only when some state cannot be marshalled |
| TranscriptFit.SendTranscript | internal/agent/autocontinue_typesafe.go:358-387 | Selected and fitted, the transcript of a verdict always has the original request and the last reply |
| TranscriptFit.SearchIsLeast | internal/agent/autocontinue_select_typesafe.go:343-346 | Under that premise the search finds the least number of drops that fits |
| TranscriptFit.FindDrops | internal/agent/autocontinue_select_typesafe.go:375-389 | The loop over lo and hi computes the search |
| TranscriptFit.SearchEqualsGreedy | internal/agent/autocontinue_select_typesafe.go:336-346 | Under that premise the search returns what the loop would that drops the lowest score, the earliest on ties |
| TranscriptFit.NextLowest | internal/agent/autocontinue_select_typesafe.go:347-354 | The drop order lists the lowest remaining message next |
| TranscriptFit.WithoutIsSubsequence | internal/agent/autocontinue_select_typesafe.go:356-368 | The result is the subsequence of the messages that stay |
| TranscriptFit.UndroppableStay | internal/agent/autocontinue_select_typesafe.go:348-353 | Pinned and unscored messages always stay |
| TranscriptFit.OrderIsDropOrder | internal/agent/autocontinue_select_typesafe.go:348-354 | The stable sort lists exactly the droppable indices, lowest score first, ties in order |
| StateSize.FitIsGreedyIff | internal/agent/autocontinue_select_typesafe.go:336-346 | With the state the code builds, the search returns what the greedy loop would if and only if there is just one message to drop or the first drop does not turn a fitting state into one over the budget |
| StateSize.MonotoneIff | internal/agent/autocontinue_select_typesafe.go:343-346 | The premise that dropping never grows the state out of the budget holds if and only if that first drop does not |
| StateSize.FirstDropOverflowsIff | internal/agent/autocontinue_typesafe.go:367-381 | In bytes: nothing was left out before, the state fits, and transcript_selection costs more than the first dropped entry and the room left |
| StateSize.LaterDropsShrink | internal/agent/autocontinue_typesafe.go:367-381 | Once something is left out every further drop makes the state strictly smaller |
| StateSize.OverflowDropsForNothing | internal/agent/autocontinue_select_typesafe.go:375-392 | After such a first drop at least two messages are dropped where the greedy loop drops none |
| FullState.SomeChainLosesMessages | internal/agent/autocontinue_typesafe.go:367-381 | Such transcripts exist whatever the other fields hold, up to 95000 bytes: 27 messages of letters, none over the cap of 4000, that fill the budget to the byte |
| FullState.RestIsSmall | internal/agent/autocontinue_typesafe.go:596-615 | The other fields stay far below that: with at most 15 plan items of 300 characters, 40 fired keys of 20 and a model name of 200 they take at most 36000 bytes and six per character of the request |
| Shot.ShotControls | internal/agent/browser_run_shot.go:76-92 | The first 160 controls in the viewport are drawn, all text entries among them masked; the error names the first one without a box |
| Shot.EveryFieldIsMasked | internal/agent/browser_run_shot.go:66-75 | A control is masked if and only if it is a text entry in the viewport, past the drawing cap too |
| Shot.DrawShot | internal/agent/browser_run_shot.go:97-144 | The errors in their order; otherwise an image of at most 1280 by 800 whose pixels are the scaled picture after masks, outlines and tags; in viewport coordinates, every pixel that a masked box touches shows one of our own three colours |
| Shot.FieldsLookAlike | internal/agent/browser_run_shot.go:114-128 | In viewport coordinates: two shots that differ only in the picture of the page show the same pixel wherever a text field is |
| Shot.ShrunkNoMoreThanNeeded | internal/agent/browser_run_shot.go:106-108 | A picture within 1280 by 800 keeps its size; any other is shrunk until one side is at its bound |
| Shot.ProportionsAreKept | internal/agent/browser_run_shot.go:106-108 | The proportions are kept up to the rounding of one pixel |
| Shot.StrokeIsFrame | internal/agent/browser_run_shot.go:159-167 | The outline is exactly the frame of the rectangle, two pixels thick |
| Shot.TagIsAtCorner | internal/agent/browser_run_shot.go:169-187 | The tag stands at the top-left corner, clipped to the image, with the number on it |
| Shot.ShotFits | internal/agent/browser_run_shot.go:107-112 | The scaled size fits inside 1280 by 800 and never enlarges |
| Shot.RectIsTouchedPixels | internal/agent/browser_run_shot.go:146-157 | The rectangle of a box is exactly the pixels of the image that the scaled box overlaps |
| Shot.MaskedPixelIsHidden | internal/agent/browser_run_shot.go:121-128 | A masked pixel of the final image does not depend on the screenshot |
| Shot.PicturesAgree | internal/agent/browser_run_shot.go:97-144 | Two scaled pictures that agree outside the masks give the same final image |
| Shot.TypedTextStaysOut | internal/agent/browser_run_shot.go:18-22 | From the listing to the picture: no pixel that a text field touches depends on the screenshot |
| Shot.FillRect | internal/agent/browser_run_shot.go:122 | A fill changes exactly the pixels of the clipped rectangle |
| Window.LastMessages | excel-addin/bridge/localtools.go:239-257 | The doubling loop ends and returns the last messages of the whole transcript without its system messages; it fails only when a request does |
| Window.WindowSuffices | excel-addin/bridge/localtools.go:237-257 | A window with enough messages, or the whole transcript, has the newest ones |
| Window.ChatMessages | excel-addin/bridge/localtools.go:260-290 | One entry for each message that is not a system message, in order, with its role and calls; tool bodies blank, others cut after 2000 characters with a note of how many |
| Glob.ClaudePatternMatches | internal/agent/claude_settings.go:44-67 | A match holds if and only if the pattern is empty or a star as written, or the quote-stripped command is the quote-stripped pattern with one-line text for each star |
| Glob.NormalizeKeepsTheRest | internal/agent/claude_settings.go:36-38 | Normalizing keeps exactly the characters that are not double quotes, in order |
| Glob.QuotesDoNotMatter | internal/agent/claude_settings.go:40-43 | A double quote anywhere in a command or pattern makes no difference to the match |
| Glob.TranslationIsGlob | internal/agent/claude_settings.go:52-66 | Searching for the emitted regular expression is glob matching, anchored at both ends |
| Glob.AnchoredParses | internal/agent/claude_settings.go:51-64 | The emitted text parses as exactly the literals of the pattern with a run of anything for each star |
| Glob.StarIsAnythingOnOneLine | internal/agent/claude_settings.go:40-43 | On one-line commands a star stands for any text |
| Glob.StarIsAnythingIffOneLine | internal/agent/claude_settings.go:40-43 | The documented meaning of a star holds of a command for every pattern if and only if the command has no line break |
| Glob.NoStarIsEquality | internal/agent/claude_settings.go:42 | Without a star the match is equality |
| Glob.NewlineIsNotMatched | internal/agent/claude_settings.go:40-43 | A star does not match a line break, contrary to the comment |

## Left out

- LLM calls, HTTP, streams, subprocesses, files, snapshots, hooks and timers: their outcomes are arbitrary values or steps that may happen at any time.
- LimiterProtocol.ConcurrencyLimiter.AcquireCancellable: `wakeups` bounds how often the select may fire, so the model does not say that a waiter is scheduled eventually.
- NestedChain.ChainCompletes: linear chains of synchronous dispatches without limit changes or cancellation; a nested call that starts while a reacquire is in flight is not part of the claim.
- SlotProtocol.RunKeepsInv: the dispatch code around the slot functions in subagent.go enters only through its steps, in any order; which of them a given timeout or resume leads to is not modelled.
- AgentRuns.AgentRunRegistry.CancelAll: one walk without other goroutines changing the graph meanwhile; the runs are visited in map order, which the model leaves open.
- AgentRunRegistry.New, pruneCompletedLocked and ShareLimiterFrom: bookkeeping of ids and pruning would only add easy members.
- The transcript, usage, retry and teardown fields of a run are not modelled; neither are the times it records.
- HubProtocol.RunKeepsInv: event queues of panes, discardQueued, the best-effort cancel event, truncation of long results and pane information are not modelled; a send to a pane's queue may succeed at any time.
- Json.AcceptsExactlyTheGrammar: the input is a sequence of lexemes; how one string or number literal is lexed, and the library's limit on nesting depth, are not modelled.
- JsonText.SpellIsInjective: strings are sequences of Unicode characters; invalid UTF-8, which the library replaces, is not modelled.
- StepRound.Agent.RunDag: which nodes a failed or skipped predecessor blocks is an input, and every node is assumed to leave one message (internal/agent/task_dag.go:854-881); order, retries and predecessor context are not modelled.
- StepRound.Agent.Answer: goroutines of the parallel batch are whole steps in any order, since each writes only its own slot; images, notices and display text of a message, and the wording of the two fixed notices, are not modelled.
- AgentStep.Step: the step limit is read once, prompt preparation, advisor wording and suggestions are not modelled, and the second list of messages, which gets the same appends for the next request, is left out.
- Rounds.RoundAnswersEachCallOnce: needs distinct non-empty call ids; without them RoundLeavesNoOrphan still holds.
- Selection.ScoreSelected: SHA-256 is taken to be injective, roles contain no NUL, the judge is a function of request, reply, role and trimmed content, and batches run one after the other because each writes only its own result; which message is the original request is a parameter.
- TranscriptFit.Fit: building and measuring the state is one function that may fail.
- StateSize.FitIsGreedyIff: whatever the state holds besides the transcript is one number of bytes; messages are not blank and marshalling succeeds.
- FullState.RestIsSmall: ids, statuses, action keys and the model name have no cap in the code; the bounds here are generous ones.
- Shot.DrawShot: floating-point rounding is exact reals; resampling is any function of the pixel and glyph shapes any fixed font; decoding and encoding PNG are left out.
- Shot.RectIsTouchedPixels: boxes of non-negative size, as a browser reports them.
- Window.LastMessages: the server answers with the last messages of a fixed transcript or fails; a transcript that changes between two requests is not modelled.
- Glob.ClaudePatternMatches: the regexp syntax is read only in the fragment the code emits.
- Compaction boundaries, the permission decision tree, prompt text, model resolution, agent loading, capability tables, the route allowlist, the desktop shell and panics are left out.

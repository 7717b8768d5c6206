# Verified model of the `spawned` actor runtime

`spawned` is an Erlang-style actor runtime for Rust: actors with mailboxes, links, monitors,
supervisors, process groups, and a cluster layer that carries messages and supervision between
nodes. This project models its state machines and protocols in Dafny and proves what they keep.

    dafny verify dfyconfig.toml

## How the model is built

Code that several threads run at once is a step system. A state holds the shared tables, slots,
flags and counters; a step is one lock operation, one atomic access or one channel access; a run
is any sequence of enabled steps. The results quantify over all runs, and over all numbers of
actors, senders and callers. Code that updates its own fields is a class whose methods are proved
against functions on values, and the lemmas are about those functions. Pure code is functions.
Clocks, randomness and the behaviour of user callbacks are inputs of the steps.

| file | component |
|---|---|
| `Reasons.dfy` | exit reasons and how an actor's own reason is merged with requests and links |
| `LinkTables.dfy`, `LinkProtocol.dfy`, `LinkRuns.dfy`, `LinkFates.dfy`, `Linking.dfy`, `Unlinking.dfy`, `DeathCascade.dfy` | link tables, linking against exiting at lock granularity, what becomes of every entry, what a link and an unlink achieve, the cascade of deaths |
| `ActorLifecycle.dfy` | one actor from `started()` to its published exit reason |
| `MailboxDepth.dfy`, `MailboxReceive.dfy` | the depth counter of bounded mailboxes, the four-class receive |
| `Intensity.dfy`, `Backoff.dfy` | restart limit, restart delays, spawn retries |
| `SupervisorSpec.dfy`, `SupervisorEngine.dfy`, `StaticSupervisor.dfy` | the policy engine as functions, as a class, and the static supervisor that drives it |
| `InstanceIds.dfy`, `DynamicSupervisorSpec.dfy`, `DynamicSupervisorEffects.dfy`, `DynamicPopulation.dfy`, `DynamicSupervisor.dfy` | the dynamic supervisor, the names it makes up and the actors it leaves running |
| `ProcessGroups.dfy`, `ProcessGroupRuns.dfy`, `TypedJoins.dfy`, `PgStore.dfy`, `PgReplication.dfy`, `PgReplicationResults.dfy` | the process-group store, its runs, typed joins, the class, replication to a peer |
| `PublishLocks.dfy` | the locks behind a process-group publication |
| `Monitors.dfy`, `RepeatedMonitors.dfy` | monitors in an actor's own table and in the broker, and one reference installed again and again |
| `Frames.dfy`, `SupervisionValidate.dfy`, `RequestReply.dfy` | frames, envelope rules, requests and replies over connections |
| `TypeQualification.dfy`, `TypeResolution.dfy` | the type rewriting of the protocol macro and what names mean |

## What turned out not to hold

Each of these is a statement one would expect, a concrete or general counterexample, and the exact
condition under which the code does meet it.

- An exit signal can be lost in two ways. A link made while its target is exiting loses it if the
  entry is pushed after the drain and the linker reads the completion before it is published
  (`LinkRuns.LostSignal`, `LinkRuns.FateOfALink`). And since a link call looks only at its
  target, a link made for a dead owner loses it without any race (`LinkFates.DeadOwner`). For every
  entry of every table, `LinkFates.FateOfEveryEntry` and `LinkFates.LateEntryExactly` say when it is
  signalled.
- A RestForOne batch can stay pending for ever, because completion is checked by position while the
  batch is chosen by start index. `SupervisorSpec.CompletionCheck` gives the exact condition (the
  failed child's index is at most the number of registered children),
  `SupervisorSpec.StuckAfterRemovals` an example and `SupervisorSpec.BatchSticks` its permanence.
- A limit on dynamic children does not bound the running ones, because a child whose registry name is
  taken is forgotten but not stopped (`DynamicPopulation.LimitDoesNotBoundRunning`);
  `DynamicPopulation.PopulationExactly` is the exact excess.
- A `Down` can follow a broker demonitor that found the entry (`Monitors.DownAfterDemonitor`): if and
  only if the target was dead when the installer looked at it (`Monitors.BrokerDemonitor`).
- A removed actor's groups are listed, emptied and announced separately. A leave and a join that
  overtake the removal take a member away from the peer (`PgReplicationResults.OvertakenRemoval`), a
  join in between leaves it a non-member (`PgReplicationResults.MissedByRemoval`).
  `PgReplicationResults.ConservationExactly` is the exact condition: every removal finds its list right.
- The peer also keeps what is joined twice in one membership, what is dropped dead while its group is
  read, and what a second snapshot repeats (`PgReplicationResults.SecondJoinSticks`,
  `PgReplicationResults.SilentPrune`, `PgReplicationResults.RepeatedSnapshot`);
  `PgReplicationResults.ReplicationConservation` is the whole account.
- A publication holds the store's lock while it takes the connection lock, and whoever makes a
  connection needs the store for its snapshot. The first publication to a reachable peer therefore
  waits for itself (`PublishLocks.FirstPublicationJams`); `PublishLocks.PublicationExactly` says when
  a publication can come to its end.
- One monitor reference can yield several `Down`s if it is installed several times
  (`RepeatedMonitors.InstalledDead`); `RepeatedMonitors.DownsExactly` is the exact number.
- A leave between the two halves of a typed join leaves a cached reference to a non-member
  (`TypedJoins.LeaveBetweenHalves`); `TypedJoins.AgreementExactly` is the exact condition over runs.
- On the tasks runtime a receive on a mailbox everybody has left panics unless all four channels had
  been noticed as finished before (`MailboxReceive.AbandonedTasksReceive`). Actors keep a sender to
  themselves and never get there (`MailboxReceive.NeverFailsWhileReachable`).
- The type rewriting loses paths into external crates and `Self`, and lets generated structs capture
  associated types (`TypeResolution.CratePathIsLost`, `TypeResolution.SelfIsLost`,
  `TypeResolution.AssociatedTypeIsCaptured`); `TypeResolution.QualifyPreservesMeaning` is the exact
  condition on names.

Where documentation and code differ, the model follows the code. The comment on `kill()` promises
the reason `Kill`, but a shutdown requested later overwrites it (`ActorLifecycle.KillOverwritten`);
`ActorLifecycle.KillExactly` has the condition. The comment on `is_abnormal` names permanent
children, which restart on normal exits too (`SupervisorSpec.RestartTypesFormAChain`).

## Model

| member | source | states |
|---|---|---|
| `Reasons.ResolveExitReason` | concurrency/src/exit_request.rs:18-36 | a request wins, then the own failure, then the linked one; the linked slot is consumed only if it decides |
| `Reasons.ReasonSlot.SetIfEmpty` | concurrency/src/link.rs:89-93 | the first linked reason is kept |
| `LinkTables.LinkTable.InsertIfAbsent` | concurrency/src/link.rs:124-153 | an entry is added only if the peer has none, and a table with one entry per peer stays one |
| `LinkTables.LinkTable.TakePeer` | concurrency/src/link.rs:234-239 | the peer's entry is gone, the others are kept in order, and the answer says whether it was there |
| `LinkTables.LinkTable.Drain` | concurrency/src/link.rs:214-218 | everything is handed out and the table is empty |
| `LinkTables.RegisterLink` | concurrency/src/link.rs:124-153 | afterwards each side has the other, once; an actor linked to itself included |
| `LinkTables.PropagateExit` | concurrency/src/link.rs:214-229 | own table empty, own id gone from every peer's table, other tables untouched, one signal per entry in table order |
| `LinkTables.WithoutDistinct` | concurrency/src/link.rs:234-239 | removal keeps one entry per peer |
| `LinkTables.WithoutAppend` | concurrency/src/link.rs:234-239 | removal goes through the table in order and leaves out exactly the peer's entries |
| `LinkTables.InsertedDistinct` | concurrency/src/link.rs:124-153 | the guard keeps one entry per peer, adds the peer and keeps the others |
| `LinkProtocol.StepKeepsInv` | concurrency/src/link.rs:124-239 | every critical section keeps every entry where its recorded fate says |
| `LinkRuns.ExitSignalConservation` | concurrency/src/link.rs:159-239 | in every interleaving tables hold a peer at most once, no two signals stem from one entry, and each signal carries its holder's reason to its peer |
| `LinkRuns.FateOfALink` | concurrency/src/link.rs:159-189 | the entry a finished call pushed into the table of a published target was signalled, unlinked, ended by the owner's exit, or is about to be signalled, unless it was pushed after the drain and read before the publication |
| `LinkRuns.FateIsFinal` | concurrency/src/link.rs:195-239 | an entry that left its table never returns, and a delivery, an unlink or a removal is final |
| `LinkRuns.NothingBlocks` | concurrency/src/link.rs:159-229 | every call and every exit in progress can always take its next step |
| `LinkRuns.LostSignal` | concurrency/src/tasks/actor.rs:863-880 | a run in the window between propagation and publication that loses a signal |
| `LinkFates.FateOfEveryEntry` | concurrency/src/link.rs:124-239 | every entry of a published holder: an early one was signalled by the holder, unlinked or ended by its peer's exit; a late one is signalled if and only if a call from its peer read the completion and took it |
| `LinkFates.LateEntryExactly` | concurrency/src/link.rs:159-189 | over every run, a late entry is signalled if and only if such a call comes while it is in the table |
| `LinkFates.DeadOwner` | concurrency/src/link.rs:159-189 | a link made for a dead owner loses its signal without any race |
| `Linking.LinkJoins` | concurrency/src/link.rs:124-189 | a link call between two living actors leaves each in the other's table, whatever else runs, unless one of them exits or an unlink parts them |
| `Linking.EntryStays` | concurrency/src/link.rs:124-239 | only an exit of one of the two, or an unlink between them, takes an entry out of a table |
| `Linking.EverythingEnds` | concurrency/src/link.rs:124-239 | a link call is done after at most five critical sections, an unlink after two, an exit after two per drained entry and the publication |
| `Unlinking.NeverSignalled` | concurrency/src/link.rs:195-208 | an entry that is in its table when an unlink call reaches that table is never signalled, in any run that follows |
| `Unlinking.UnlinkSeparates` | concurrency/src/link.rs:195-208 | once an unlink call is done, and with no link call of the pair pushing since it began, neither table has the other |
| `Unlinking.LaterSignals` | concurrency/src/link.rs:195-239 | after that a signal passes between the two only from an entry that its holder had drained, or a link call had taken, before |
| `Unlinking.DeadNotSignalled` | concurrency/src/link.rs:214-229 | an entry for an exiting actor that it takes out of its peer's table is never signalled |
| `Unlinking.ExitCleansUp` | concurrency/src/link.rs:211-229 | an entry for an exiting actor that was in a linked peer's table at the drain is gone when the actor has published |
| `Unlinking.SignalAfterUnhook` | concurrency/src/link.rs:221-228 | an exiting actor signals a peer only after it has left that peer's table, and with its own reason |
| `DeathCascade.StepKeepsInv` | concurrency/src/link.rs:80-119 | what every step of a cascade keeps: reasons, tables, pending peers, one `Exit` per finished pair |
| `DeathCascade.StepLowersMeasure` | concurrency/src/link.rs:214-229 | every step lowers a measure |
| `DeathCascade.CascadeTerminates` | concurrency/src/link.rs:214-229 | no schedule is longer than the measure of its start |
| `DeathCascade.PathDies` | concurrency/src/link.rs:80-119 | when nothing is left to do, everybody on a death path is dead |
| `DeathCascade.DeathCascadeIsClosure` | concurrency/src/link.rs:80-119 | however scheduled, the dead are exactly those reachable over death paths and all report the origin's reason and leave an empty table; a survivor's table is exactly its living neighbours, and from each neighbour it holds exactly one `Exit` with that reason if the neighbour died and it is one to be told, and nothing otherwise |
| `DeathCascade.EveryExitIsTrue` | concurrency/src/link.rs:99-118 | every `Exit` a survivor holds names a dead neighbour and carries the reason of its death |
| `DeathCascade.KillTakesTheComponent` | concurrency/src/link.rs:88-97 | after a kill, linked actors share their fate, trapping or not |
| `ActorLifecycle.StepKeepsInv` | concurrency/src/tasks/actor.rs:901-982 | slots, flags and counts agree with what has happened, after every step of the actor or a caller |
| `ActorLifecycle.ReportedReason` | concurrency/src/tasks/actor.rs:901-982 | the published reason is the `started()` panic, else the last request before the slot was taken, else the own first panic, else the first linked reason, else `Normal`; it is published at most once |
| `ActorLifecycle.CallbackDiscipline` | concurrency/src/tasks/actor.rs:911-981 | a published actor has run `stopped()` or seen the skip flag, exactly one of them and once, unless `started()` panicked; nobody killed it: it has run `stopped()`; a seen skip flag means it was killed and a requested reason is reported; at most one handler starts after cancellation, and a published actor is cancelled |
| `ActorLifecycle.EventsAreTrue` | concurrency/src/tasks/actor.rs:901-982 | the recorded events the results speak of happen exactly when a callback is entered, panics, or the reason is published |
| `ActorLifecycle.PlainStop` | concurrency/src/child_handle.rs:168-170 | an actor that is only stopped, and neither panics nor is signalled, runs `stopped()` and reports `Normal` |
| `ActorLifecycle.FinishedCalls` | concurrency/src/child_handle.rs:168-190 | a finished call has cancelled the actor; shutdown and kill have requested their reason, a kill has set the skip flag, a link signal has put a reason on record |
| `ActorLifecycle.SignalAsks` | concurrency/src/tasks/actor.rs:957-961 | an actor that has received an operating-system signal requests its own shutdown before anything else |
| `ActorLifecycle.EarlyCancellation` | concurrency/src/tasks/actor.rs:919-924 | cancelled before its loop, an actor handles no message, and a panic of `stopped()` does not become its reason |
| `ActorLifecycle.CancelledComesToItsEnd` | concurrency/src/tasks/actor.rs:901-982 | after its cancellation an actor makes at most ten more steps, however its callbacks end, and it can always make one until it has published |
| `ActorLifecycle.LeavesForACause` | concurrency/src/tasks/actor.rs:926-967 | an actor leaves its loop only if it was cancelled, a callback panicked, or it received a signal or the end of its mailbox |
| `ActorLifecycle.CompletionIsFinal` | concurrency/src/child_handle.rs:168-190 | stop, shutdown, kill and link signals never change a published reason |
| `ActorLifecycle.CutsArePast` | concurrency/src/exit_request.rs:23-33 | what decides the reason lies before the moment each slot was taken |
| `ActorLifecycle.KillExactly` | concurrency/src/child_handle.rs:182-190 | an actor killed before its slot was taken reports `Kill` if and only if `started()` did not panic and the kill was the last request |
| `ActorLifecycle.KillOverwritten` | concurrency/src/child_handle.rs:172-190 | a run in which a later shutdown request makes a killed actor report `Shutdown` |
| `MailboxDepth.StepKeepsInv` | concurrency/src/mailbox.rs:367-488 | every atomic access or lock operation keeps the counter equal to what it accounts for |
| `MailboxDepth.BoundedMailbox` | concurrency/src/mailbox.rs:367-488 | with any number of senders, depth equals queued, abandoned, acquired and dequeued messages together, is never above capacity, and is positive before each decrement |
| `MailboxDepth.SwapTakesFreePlace` | concurrency/src/mailbox.rs:367-384 | with a place free an undisturbed sender takes exactly one, with none free it takes none |
| `MailboxDepth.LockTakesFreePlace` | concurrency/src/mailbox.rs:386-404 | the same under the lock, which is free again afterwards |
| `MailboxDepth.PlaceComesBack` | concurrency/src/mailbox.rs:405-488 | a place is given back in full, after the message was received or when a closed mailbox refused it |
| `MailboxDepth.UnlockedOverflows` | concurrency/src/mailbox.rs:386-404 | without the lock, load-then-add exceeds the capacity |
| `MailboxReceive.StepKeepsInv` | concurrency/src/mailbox.rs:153-336 | receive steps, sends and hang-ups keep per-class order and the urgency of what was waiting |
| `MailboxReceive.PriorityReceive` | concurrency/src/mailbox.rs:153-336 | per class the items returned, followed by those queued, are what was sent, in order; a returned item is of the most urgent class that held something at the call or a more urgent one; `None` means all closed and drained; a call does not wait if something was there |
| `MailboxReceive.QueuedIsReturned` | concurrency/src/mailbox.rs:153-336 | a call during which something is queued returns an item within a bounded number of its own steps, whatever the senders do, and can always take one until then |
| `MailboxReceive.NeverFailsWhileReachable` | concurrency/src/mailbox.rs:157-160 | with a sender left, receive neither ends nor panics |
| `MailboxReceive.AbandonedTasksReceive` | concurrency/src/mailbox.rs:153-219 | on an abandoned mailbox the tasks receive returns `None` if all flags were set before, and panics otherwise |
| `Intensity.IntensityTracker.RecordRestart` | concurrency/src/supervisor/mod.rs:84-97 | accepts exactly when the set of accepted restarts no older than the window has fewer than the maximum of members |
| `Intensity.CountIsWindow` | concurrency/src/supervisor/mod.rs:84-92 | what is counted is the set of restarts no older than the window, and nothing else |
| `Intensity.IntensityTracker.Prune` | concurrency/src/supervisor/mod.rs:84-92 | what remains in the deque is exactly the recent end of the history |
| `Intensity.AdmissibleExtend` | concurrency/src/supervisor/mod.rs:84-97 | an accepted restart extends an admissible history |
| `Intensity.NoOverfullWindow` | concurrency/src/supervisor/mod.rs:84-97 | no closed window of the given length ever holds more accepted restarts than allowed |
| `Backoff.ExponentialDelay` | concurrency/src/child_spec.rs:144-156 | the capped saturating delay is the capped mathematical one |
| `Backoff.KthDelay` | concurrency/src/supervisor/mod.rs:134-149 | the k-th delay in a row is base times 2^min(k-1, 20), capped |
| `Backoff.ConstantDelays` | concurrency/src/child_spec.rs:144-156 | a fixed backoff always waits its delay, and no backoff never waits |
| `Backoff.DelayMonotone` | concurrency/src/child_spec.rs:144-156 | later attempts never wait less |
| `Backoff.OthersKeepCounting` | concurrency/src/supervisor/mod.rs:134-149 | counting for one child leaves the others' counters alone |
| `Backoff.RetryDelayExact` | concurrency/src/cluster/supervision_remote.rs:169-173 | the wait after the k-th failure is base times 2^min(k-1, 16), capped |
| `Backoff.SleepBound` | concurrency/src/cluster/supervision_remote.rs:169-173 | n waits take at most n times the maximal delay |
| `Backoff.RequestSpawnWithRetry` | concurrency/src/cluster/supervision_remote.rs:231-251 | at most max(1, attempts) requests, retried only after transport failures, result of the last one, total sleep bounded |
| `SupervisorSpec.QuietExitResetsBackoff` | concurrency/src/supervisor/mod.rs:134-149 | after a non-restarting exit the delays start from the base again |
| `SupervisorSpec.RemovalKeepsOrder` | concurrency/src/supervisor/mod.rs:238-248 | removing a child keeps start indices increasing and not below positions |
| `SupervisorSpec.CompletionCheck` | concurrency/src/supervisor/mod.rs:348-363 | with the batch dead, the positional check succeeds if and only if the index is at most the number of children |
| `SupervisorSpec.CheckAgreesWhenPositional` | concurrency/src/supervisor/mod.rs:384-390 | with start index equal to position, the check agrees with the choice by start index |
| `SupervisorSpec.BatchSticks` | concurrency/src/tasks/supervisor.rs:317-321 | a batch whose index is beyond the children stays pending whatever exits follow |
| `SupervisorSpec.StuckAfterRemovals` | concurrency/src/tasks/supervisor.rs:202-202 | an engine state after two removals in which a failure orders a batch that never completes |
| `SupervisorSpec.AfterExitValid` | concurrency/src/tasks/supervisor.rs:317-354 | an exit keeps children at their positions with distinct actors from before the next fresh one |
| `SupervisorSpec.ExitRetires` | concurrency/src/supervisor/mod.rs:288-330 | an exit that is acted on retires its actor |
| `SupervisorSpec.RetiredForever` | concurrency/src/supervisor/mod.rs:171-177 | over any run a retired actor stays retired |
| `SupervisorSpec.LateExitIgnored` | concurrency/src/supervisor/mod.rs:288-300 | an exit from an actor that runs for no child changes nothing, the restart window included |
| `SupervisorSpec.ActedOnAtMostOnce` | concurrency/src/supervisor/mod.rs:262-330 | over any run the exit of one incarnation is acted on at most once |
| `SupervisorSpec.BatchAbsorbs` | concurrency/src/tasks/supervisor.rs:293-354 | every actor a batch replaces is retired by it, and the batch counts as at most one restart |
| `SupervisorSpec.RestartIsExact` | concurrency/src/supervisor/mod.rs:302-330 | exactly the children the strategy names get fresh actors, the others are untouched, one restart is counted |
| `SupervisorSpec.EngineExactly` | concurrency/src/supervisor/mod.rs:288-330 | the engine restarts exactly if the child's own type wants it for this reason and the window has room, melts down exactly if it wants it without room, and ignores the exit exactly if it does not want it; what happens to the history and the backoff counters |
| `SupervisorSpec.DecideExactly` | concurrency/src/tasks/supervisor.rs:317-354 | the same of a static supervisor and the child an actor runs for, and that giving up stops it |
| `SupervisorSpec.RestartCounts` | concurrency/src/tasks/supervisor.rs:274-315 | a restart counts one attempt for each restarted child with a backoff and none for the others |
| `SupervisorEngine.SupervisorLogic.ChildIndexByActor` | concurrency/src/supervisor/mod.rs:171-177 | the first child the actor runs for |
| `SupervisorEngine.SupervisorLogic.MarkChildDead` | concurrency/src/supervisor/mod.rs:262-268 | only the child the actor runs for is marked |
| `SupervisorEngine.SupervisorLogic.ReplaceChildHandle` | concurrency/src/supervisor/mod.rs:277-286 | only the named child gets the new handle |
| `SupervisorEngine.SupervisorLogic.RemoveChildById` | concurrency/src/supervisor/mod.rs:238-248 | the named child goes, the others keep their order |
| `SupervisorEngine.SupervisorLogic.BackoffDelay` | concurrency/src/supervisor/mod.rs:134-145 | counter and delay as in the specification |
| `SupervisorEngine.SupervisorLogic.OnChildExit` | concurrency/src/supervisor/mod.rs:288-330 | the pruning engine takes the decision the full history gives |
| `SupervisorEngine.SupervisorLogic.PendingBatchRestartComplete` | concurrency/src/supervisor/mod.rs:348-363 | true exactly when the pending batch's positions are all dead |
| `SupervisorEngine.SupervisorLogic.TakePendingRestartIds` | concurrency/src/supervisor/mod.rs:338-346 | hands out the batch once and lifts the suppression |
| `StaticSupervisor.Supervisor.constructor` | concurrency/src/tasks/supervisor.rs:358-374 | children registered in order, start index equal to position; handles and children agree, and the supervisor is valid, if and only if the ids are distinct |
| `StaticSupervisor.Supervisor.TerminateChildren` | concurrency/src/tasks/supervisor.rs:236-264 | exactly the given range is marked dead |
| `StaticSupervisor.Supervisor.RestartChildWithBackoff` | concurrency/src/tasks/supervisor.rs:274-291 | one more attempt counted, one fresh actor in the child's place |
| `StaticSupervisor.Supervisor.RestartRange` | concurrency/src/tasks/supervisor.rs:293-315 | the range gets fresh actors in order and the handle map follows |
| `StaticSupervisor.Supervisor.RunBatch` | concurrency/src/tasks/supervisor.rs:293-315 | terminate, check and restart a batch; the check never fails and nothing stays pending |
| `StaticSupervisor.Supervisor.HandleExit` | concurrency/src/tasks/supervisor.rs:317-354 | one exit message is exactly the specified step, with no batch pending and restarts not suppressed at its end |
| `InstanceIds.DecimalRoundTrip` | concurrency/src/dynamic_supervisor/mod.rs:31-34 | the decimal text gives back its number and contains no `#` |
| `InstanceIds.CounterRecovered` | concurrency/src/dynamic_supervisor/mod.rs:31-34 | the text after the last `#` is the counter, whatever the template |
| `InstanceIds.InstanceIdInjective` | concurrency/src/dynamic_supervisor/mod.rs:31-34 | equal names have equal templates and counters |
| `DynamicSupervisorSpec.StepConsistent` | concurrency/src/tasks/dynamic_supervisor.rs:209-509 | start, terminate and exit keep the maps and the engine consistent |
| `DynamicSupervisorSpec.AlwaysConsistent` | concurrency/src/tasks/dynamic_supervisor.rs:209-509 | after any messages specs, handles and engine have the same ids, the reverse map is the inverse, and no more tracked children are alive than allowed |
| `DynamicSupervisorSpec.AlwaysOneNameEach` | concurrency/src/tasks/dynamic_supervisor.rs:396-412 | after any messages a child has at most one registry name |
| `DynamicSupervisorSpec.NeverDuplicate` | concurrency/src/tasks/dynamic_supervisor.rs:209-257 | the duplicate-id error is never returned |
| `DynamicSupervisorSpec.TerminatedStaysGone` | concurrency/src/tasks/dynamic_supervisor.rs:414-452 | a terminated child is never a child again, whatever follows |
| `DynamicSupervisorEffects.StartEffect` | concurrency/src/tasks/dynamic_supervisor.rs:209-257 | a start succeeds exactly with room, no stop under way and a free name, and adds one tracked child with a fresh actor, the restart type of its spec and its registry name; otherwise the tracked children are unchanged |
| `DynamicSupervisorEffects.TerminateEffect` | concurrency/src/tasks/dynamic_supervisor.rs:414-452 | a termination succeeds exactly for a current child's actor, and that child alone leaves |
| `DynamicSupervisorEffects.ExitEffect` | concurrency/src/tasks/dynamic_supervisor.rs:480-509 | an exit touches its own child alone, which is gone or has a fresh actor unless the supervisor gave up |
| `DynamicSupervisorEffects.ExitDecided` | concurrency/src/tasks/dynamic_supervisor.rs:480-509 | the child gets a fresh actor, is gone, or the supervisor stops, according to the child's own restart type, the reason and the room in the window |
| `DynamicSupervisorEffects.AlwaysMatches` | concurrency/src/tasks/dynamic_supervisor.rs:231-244 | after any messages every child is registered with the restart type of its spec |
| `DynamicPopulation.PopulationExactly` | concurrency/src/tasks/dynamic_supervisor.rs:225-257 | over every run, the running actors beyond the tracked ones are exactly those the registry refused and that have not exited, and all others are within the limit |
| `DynamicPopulation.RunningExactly` | concurrency/src/tasks/dynamic_supervisor.rs:209-257 | the running actors are those some message started and that have neither exited nor been terminated since |
| `DynamicPopulation.LimitDoesNotBoundRunning` | concurrency/src/tasks/dynamic_supervisor.rs:244-252 | with a limit of one and a taken name, any number of starts leaves as many untracked actors running |
| `DynamicSupervisorActor.DynamicSupervisor.StartChild` | concurrency/src/tasks/dynamic_supervisor.rs:209-257 | refines the start step, replies included |
| `DynamicSupervisorActor.DynamicSupervisor.CleanupChild` | concurrency/src/tasks/dynamic_supervisor.rs:396-412 | the child leaves all four maps and the engine |
| `DynamicSupervisorActor.DynamicSupervisor.TerminateChildByActor` | concurrency/src/tasks/dynamic_supervisor.rs:414-452 | the engine forgets the child before it is shut down; refines the terminate step, replies included |
| `DynamicSupervisorActor.DynamicSupervisor.RestartChild` | concurrency/src/tasks/dynamic_supervisor.rs:377-394 | the old actor is replaced in handles, reverse map and engine |
| `DynamicSupervisorActor.DynamicSupervisor.HandleExit` | concurrency/src/tasks/dynamic_supervisor.rs:480-509 | refines the exit step |
| `ProcessGroups.JoinKeeps` | concurrency/src/pg.rs:232-242 | a join adds one to one join count and keeps consistency |
| `ProcessGroups.LeaveKeeps` | concurrency/src/pg.rs:259-304 | a leave takes one from one join count, or nothing, and keeps consistency |
| `ProcessGroups.ExpelKeeps` | concurrency/src/pg.rs:280-295 | the last leave removes member, index entry and typed entry of that group only |
| `ProcessGroups.PruneKeeps` | concurrency/src/pg.rs:307-375 | reading members drops the group's dead members and nothing else |
| `ProcessGroups.VacateConsistent` | concurrency/src/pg.rs:131-154 | tidying a possibly empty group restores consistency |
| `ProcessGroups.RemoteJoinKeeps` | concurrency/src/pg.rs:490-514 | a remote join adds one to one remote count; local addresses are ignored |
| `ProcessGroups.RemoteLeaveKeeps` | concurrency/src/pg.rs:515-536 | a remote leave keeps consistency and all local members |
| `ProcessGroups.RemoteLeaveCounts` | concurrency/src/pg.rs:515-536 | a remote leave takes one from one remote count and never goes below zero |
| `ProcessGroups.RemoveActorKeeps` | concurrency/src/pg.rs:113-129 | the actor is gone everywhere; every other membership, remote member and member's typed entry is kept |
| `ProcessGroupRuns.AlwaysConsistent` | concurrency/src/pg.rs:69-162 | after any operations: no empty inner map, local and remote apart, every membership indexed |
| `ProcessGroupRuns.MembershipLasts` | concurrency/src/pg.rs:259-375 | only its last leave, its actor's removal or its death ends a membership |
| `ProcessGroupRuns.MembersExactly` | concurrency/src/pg.rs:232-375 | over any operations, a pair's join count in the four maps is what one counter makes of the joins, leaves, removals and reads that concern it; it is a member exactly while that is positive |
| `ProcessGroupRuns.RemoteMembersExactly` | concurrency/src/pg.rs:484-549 | the same for remote members and the peers' joins and leaves |
| `ProcessGroupRuns.EventIsOperations` | concurrency/src/pg.rs:484-549 | a peer's event, a snapshot included, does what its joins and leaves do one by one |
| `ProcessGroupRuns.ApplyCached` | concurrency/src/pg.rs:113-162 | every operation but a join keeps typed entries in agreement with memberships |
| `TypedJoins.AgreementExactly` | concurrency/src/tasks/pg.rs:16-23 | with the two halves of a typed join as separate steps, cache and members agree about all live closed pairs in every state of a run if and only if no second half closed a live pair that was no member any more |
| `TypedJoins.UndisturbedHalves` | concurrency/src/tasks/pg.rs:21-22 | that happens only if the pair's last leave or its actor's removal fell between the halves |
| `TypedJoins.TypedMembersAreMembers` | concurrency/src/tasks/pg.rs:45-53 | otherwise typed dispatch reaches exactly the live members of its type, open pairs aside |
| `TypedJoins.LeaveBetweenHalves` | concurrency/src/tasks/pg.rs:21-22 | a leave between the halves leaves a cached non-member |
| `PgStoreModel.StripStep` | concurrency/src/pg.rs:113-124 | groups can be visited in any order |
| `PgStoreModel.PgStore.RemoveGroupIfEmpty` | concurrency/src/pg.rs:131-154 | refines the tidying of a group |
| `PgStoreModel.PgStore.JoinScoped` | concurrency/src/pg.rs:232-242 | refines join |
| `PgStoreModel.PgStore.TypedJoinScoped` | concurrency/src/pg.rs:81-98 | refines the caching of a typed reference |
| `PgStoreModel.PgStore.LeaveScoped` | concurrency/src/pg.rs:259-304 | refines leave; fails exactly for non-members |
| `PgStoreModel.PgStore.RemoveActorEverywhere` | concurrency/src/pg.rs:113-129 | the loop over indexed groups refines the removal |
| `PgStoreModel.PgStore.GetLocalMembers` | concurrency/src/pg.rs:353-375 | returns exactly the live local members |
| `PgStoreModel.PgStore.MemberAddresses` | concurrency/src/pg.rs:307-329 | returns exactly the live local and all remote members |
| `PgStoreModel.PgStore.ApplyRemotePgEvent` | concurrency/src/pg.rs:484-549 | refines remote joins, leaves and snapshots |
| `PgReplication.StepKeepsInv` | concurrency/src/pg.rs:232-301 | every step, the three kinds of steps of a removal included, keeps the account of what the peer stands to have |
| `PgReplicationResults.ReplicationConservation` | concurrency/src/pg.rs:430-549 | every run: what the peer stands to have and lacks is surplus, missed joins, the indexed pair and owed farewells together; announcements find their pair and nothing is lacking if and only if no farewell was hollow and the peer was there from the beginning; once settled, peer and sender agree exactly when lack and surplus cancel |
| `PgReplicationResults.DrainsToOutlook` | concurrency/src/pg.rs:484-549 | delivering all that is on its way gives the peer exactly its outlook |
| `PgReplicationResults.RemovalDamage` | concurrency/src/pg.rs:429-459 | the damage done by removals is exactly one for every removal whose list had become wrong about the pair |
| `PgReplicationResults.ConservationExactly` | concurrency/src/pg.rs:429-459 | every announcement finds its pair and the peer's outlook is surplus, indexed pair and owed farewells, if and only if every removal found its list right |
| `PgReplicationResults.UntouchedIsAccurate` | concurrency/src/pg.rs:429-459 | the removal of a live actor is right about a pair that neither joins nor leaves between its listing and its emptying |
| `PgReplicationResults.OneJoinPerEpisode` | concurrency/src/pg.rs:232-301 | with one join per membership and accurate removals the peer's count is one for members and zero for others |
| `PgReplicationResults.SecondJoinSticks` | concurrency/src/pg.rs:278-301 | after a second join in one membership the peer never forgets the pair, unless a farewell is hollow |
| `PgReplicationResults.OvertakenRemoval` | concurrency/src/pg.rs:429-459 | a run in which a leave and a join overtake a removal, whose farewell takes a member away from the peer |
| `PgReplicationResults.MissedByRemoval` | concurrency/src/pg.rs:429-459 | a run in which a join falls between listing and emptying, and the peer keeps a non-member |
| `PgReplicationResults.SilentPrune` | concurrency/src/pg.rs:331-375 | a run in which a dead member is dropped while its group is read, and the peer keeps it |
| `PgReplicationResults.RepeatedSnapshot` | concurrency/src/pg.rs:461-480 | a snapshot repairs a peer that lacks the pair and adds a surplus to one that has it |
| `PublishLocks.StepKeepsInv` | cluster/src/tcp/transport.rs:171-199 | every step keeps the two locks with the threads that hold them |
| `PublishLocks.PublicationExactly` | concurrency/src/pg.rs:232-251 | a publication that holds the store can come to its end if and only if the connection exists, the peer cannot be reached, the thread making the connection is done with the store, or it is on its way out |
| `PublishLocks.JammedForEver` | cluster/src/control.rs:43-110 | in every other case no run ever ends it or frees the store |
| `PublishLocks.WithTheConnection` | cluster/src/tcp/transport.rs:140-199 | with the connection lock in hand it ends if and only if there is a connection or no peer |
| `PublishLocks.ConnectionExactly` | cluster/src/tcp/transport.rs:171-199 | a connection appears exactly when the peer's members have been written and is dropped exactly when a frame fails |
| `PublishLocks.SenderFinishes` | cluster/src/tcp/transport.rs:140-199 | a thread that does not publish and finds both locks free can come to its end, whatever the peer's snapshot holds |
| `PublishLocks.FirstPublicationJams` | concurrency/src/pg.rs:461-480 | the first publication to a reachable peer waits for itself |
| `Monitors.StepKeepsInv` | concurrency/src/tasks/actor.rs:340-431 | every lock operation and flag access keeps entry, flag and outcome in agreement |
| `Monitors.AtMostOneDown` | concurrency/src/tasks/actor.rs:340-374 | at most one `Down` per reference, in either table |
| `Monitors.LocalDemonitorWins` | concurrency/src/tasks/actor.rs:413-431 | a local demonitor that found the entry means no `Down`; otherwise the watcher's end means exactly one |
| `Monitors.BrokerDemonitor` | concurrency/src/cluster/supervision_broker.rs:335-437 | after a found demonitor there is a `Down` if and only if the target was dead when the installer looked at it |
| `Monitors.DownIsCertain` | concurrency/src/tasks/actor.rs:340-374 | installer, watcher and n demonitor calls make at most 8 + 2n steps; with the target dead and nothing left to do there is exactly one `Down`, unless a demonitor found the entry (and, on the broker, the installer had seen the target alive) |
| `Monitors.FoundAfterInstall` | concurrency/src/cluster/supervision_broker.rs:422-437 | a demonitor that finds the entry after installation means no `Down` |
| `Monitors.DownAfterDemonitor` | concurrency/src/cluster/supervision_broker.rs:385-397 | a run with a found demonitor and a `Down` |
| `RepeatedMonitors.StepKeepsInv` | concurrency/src/cluster/supervision_broker.rs:376-437 | every step of any number of installations of one reference accounts for every entry and every `Down` |
| `RepeatedMonitors.DownsExactly` | concurrency/src/cluster/supervision_broker.rs:335-437 | never more than one `Down` per installation; at rest exactly one per installer that saw the target dead and one per entry left to the watchers |
| `RepeatedMonitors.InstalledAlive` | concurrency/src/cluster/supervision_broker.rs:380-420 | installed any number of times while the target lives, and not cancelled: exactly one `Down` |
| `RepeatedMonitors.InstalledDead` | concurrency/src/cluster/supervision_broker.rs:385-397 | installed n times after its death: n `Down`s |
| `RepeatedMonitors.DemonitorSilences` | concurrency/src/cluster/supervision_broker.rs:422-437 | a demonitor while all installations watch means no `Down`, whatever follows |
| `RepeatedMonitors.ComesToRest` | concurrency/src/cluster/supervision_broker.rs:335-437 | n installations make at most 5n steps, and until all are at rest one can step or waits for the target's exit |
| `Frames.LengthRoundTrip` | cluster/src/frame.rs:15-31 | a length survives its four bytes |
| `Frames.MostSignificantFirst` | cluster/src/frame.rs:15-18 | the first byte is the most significant one |
| `Frames.LengthIsCanonical` | cluster/src/frame.rs:27-31 | every four bytes encode exactly one length |
| `Frames.ReadWritten` | cluster/src/frame.rs:8-42 | a written frame reads back, leaving what follows |
| `Frames.ReadIsInverse` | cluster/src/frame.rs:26-42 | what reads successfully is the one frame with that body |
| `Frames.ProperPrefix` | cluster/src/frame.rs:26-42 | no proper prefix of a frame reads successfully |
| `Frames.StreamRoundTrip` | cluster/src/frame.rs:8-42 | any prefix of a stream of frames gives a prefix of the bodies and less than one frame left; the whole stream gives all bodies and nothing left |
| `Frames.Wire.WriteFrame` | cluster/src/frame.rs:8-23 | refuses exactly the oversized bodies, before writing anything |
| `Frames.Wire.ReadFrame` | cluster/src/frame.rs:26-42 | reads exactly what the specification reads |
| `SupervisionValidate.ReplyValidExactly` | cluster/src/supervision_validate.rs:52-71 | a reply is valid if and only if it concludes a spawn request under its own non-zero id |
| `SupervisionValidate.EnvelopeValidExactly` | cluster/src/supervision_validate.rs:9-50 | an envelope is valid if and only if it has an id exactly when it needs one and its worker data is at most 64 KiB |
| `SupervisionValidate.BrokerRepliesAreValid` | concurrency/src/cluster/supervision_broker.rs:181-298 | whatever the broker answers passes the requester's validation, only spawn requests are answered, success is reported exactly for a child this node was asked for, could link and did spawn, and it fails exactly on a malformed envelope, a failing notice or a child it could not register |
| `RequestReply.ServeOk` | cluster/src/tcp/listener.rs:140-190 | serving a frame turns what was owed for it into what is pending |
| `RequestReply.ClosesExactly` | cluster/src/tcp/listener.rs:140-190 | the server closes exactly on a bad or repeated hello and on a frame that cannot be applied |
| `RequestReply.StepKeepsInv` | cluster/src/tcp/transport.rs:140-227 | every step keeps what is on its way equal to what the client will read |
| `RequestReply.RepliesMatchRequests` | cluster/src/tcp/transport.rs:140-227 | on every run no reply fails its check, every reply taken is what the server's node made of the very request that was waiting, at most one request is outstanding, and late replies never answer later requests |
| `RequestReply.EqualVersionsOnly` | cluster/src/tcp/transport.rs:154-166 | between different protocol versions nobody serves and no request is made |
| `RequestReply.FramesArriveInOrder` | cluster/src/tcp/transport.rs:171-227 | on every connection the server reads the client's messages in the order they were sent, without loss or repetition |
| `TypeQualification.QualifyIdempotent` | macros/src/lib.rs:121-291 | rewriting twice is rewriting once, for every type |
| `TypeResolution.StableExactly` | macros/src/lib.rs:144-157 | a type left as it is means the same in both modules if and only if its names are not captured |
| `TypeResolution.QualifyPreservesMeaning` | macros/src/lib.rs:142-291 | the rewritten type means in the generated module what the original means in the parent if and only if its names are safe |
| `TypeResolution.CratePathIsLost` | macros/src/lib.rs:188-206 | a path into an external crate is broken |
| `TypeResolution.SelfIsLost` | macros/src/lib.rs:188-206 | `Self` is broken in every environment |
| `TypeResolution.AssociatedTypeIsCaptured` | macros/src/lib.rs:267-291 | an associated type is captured by a generated struct of its name |

## Left out

- The threads runtime duplicates the tasks runtime; of it, the mutex acquire and the threads receive are modelled.
- Remote supervisor children, remote links and the shutdown-wait registry: they depend on transport timing and key on actor ids without the node.
- The libp2p transport, sockets, the accept loop and the internals of tokio and crossbeam: FIFO queues and atomic steps take their place.
- postcard and serde encodings: frames carry the decoded values.
- The local registry, the named registry, dispatch, pools, routing, timers, streams, observability and application bootstrap: mostly settled by one branch or a short loop.
- Progress of blocked senders: the depth is released and waiters are notified without the wait lock, so only the safety of the counter is proved.
- Overflow of the join counts and of the instance counter.
- `stopped()` of supervisors, the shutdown order and the escalation from shutdown to kill.
- Unbounded mailboxes, whose counter nobody reads.
- Time is an input that does not decrease, and registered actor ids are fresh and distinct. A static supervisor whose specs repeat an id is not followed beyond its start, where it stops being valid.
- The sets in `DeathCascade` leave the order of table entries open; `LinkTables.PropagateExit` has the order.
- Untyped joins in `TypedJoins`: they make members without a typed reference by design.
- An exit signal is one step in `LinkProtocol`; its own steps (slot, cancellation, mailbox) are in `DeathCascade`.
- `PublishLocks` has one peer; a broadcast goes through its peers one after the other. A read of a lock the thread itself has locked for writing is taken to wait; the standard library may also panic there.
- What happens inside a child while a dynamic supervisor shuts it down; the supervisor handles no other message meanwhile.
- The receive loop, the actor loop and the connection loops are step systems instead of methods, because other threads act between their steps.

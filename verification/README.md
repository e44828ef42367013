# Booth Pipeline: a verified model

A Dafny model of the parts of Booth Pipeline where something can go wrong between several functions, replicas or
edits, with proofs of what they promise. `dafny verify dfyconfig.toml` checks everything (Dafny 4.11).

| files | what they model |
|---|---|
| `Triggers`, `TriggerProtocol`, `Debounce`, `Outages` | the debounce-and-queue rules of event triggers, and what any run of them keeps: of the events, of the timer, of the outages |
| `AtomicStore`, `MemoryStore`, `MemoryRuns` | the store operations on triggers and runs: as atomic steps on one pipeline, as the in-memory store's methods, and whole runs of that store |
| `PostgresStore`, `SerialPostgres` | the same operations as interleaved transactions with row locks, and what these do one after another |
| `EventBus` | at-least-once delivery into the store |
| `Schedule`, `Scheduler`, `Sorting` | time slots, claims, starts, the sweep, a whole tick |
| `Dag`, `Topology`, `Canvas`, `Layout` | the task graph: execution order, structure checks, canvas edits, automatic layout |
| `References`, `SplitSaves`, `Snapshots` | versions, drafts and what references mean; saves with other requests in between; where saved source comes from |
| `Recorder`, `Redactor`, `DriverLog` | a run's log, taking secrets out of it, copying a Spark driver's log |
| `Uri`, `Routes` | percent-encoding and the address bar |
| `Basics` | shared vocabulary |

Code that changes fields in place is a class or a method proved against a function of the old state; the theorems are
about those functions and about machines whose steps are those functions. `Instant` is a number of microseconds.
Clocks, random ids, network answers, compilation and configuration checks are parameters.

## How the trigger proofs fit together

`TriggerProtocol` takes the six row rules with any settings, any clock readings and any activity flags at each step, so
its theorems hold for every store that only uses those rules. `AtomicStore.StoreFollowsProtocol` and
`PostgresStore.InterleavingFollowsProtocol` show that each store, atomic or interleaved, makes only such steps, over
exactly the events it takes in and the fires it claims, so what is said of every run of the protocol holds of both.
`Debounce` bounds the timer from above by the last event and the debounce; `Outages` gives every outage a token, as
events have, and follows it to the run that is told of it.
`MemoryRuns.WorldFollowsAtomicStore` shows that any run of the in-memory store's
operations, with the claimed fires in flight, is for each pipeline a run of `AtomicStore`. `SerialPostgres` shows that
each PostgreSQL transaction, when no other is open, does what the operation of `AtomicStore` does. Facts that need more than the
row (a disabled trigger is quiescent, at most one active run, a terminal status is final) are proved on the store
machines.

## What the proofs turned up

* **Putting a fire back on a disabled trigger.** `MemoryStore` takes a requeue as long as the trigger exists;
  `PostgresStore` ignores it when the trigger is disabled. In the memory store a disabled trigger waits for nothing
  exactly as long as no such requeue happens (`MemoryDisabledIsQuietIff`), and otherwise a state is reachable in which a
  follow-up is queued with no timer and no active run (`MemoryReachesQueuedWithoutRun`).
* **Turning a trigger off while its row is being created.** In PostgreSQL the trigger row is inserted by the first
  ingest or outage that needs it. A turning-off that runs before that insert commits finds no row, resets nothing and
  waits for nothing, so the event stays pending on a disabled trigger (`PostgresStore.DisabledTriggerWaits`).
  `DisabledIsQuiescentIff` says exactly which commits leave something waiting, `TurnedOffForGoodIff` says it in terms of
  the turning-offs alone, and when every turning-off finds the row none does (`FoundRowsAreReset`).
* **The second clause of the claim query** is dead with atomic operations exactly as long as no trigger is turned on
  over a follow-up that nothing owes (`SecondClauseIsDeadIff`; with PostgreSQL's guard none is), and needed with
  interleaved transactions (`QueuedWithoutRunIsReachable`, `SecondClauseRescues`).
* **Arrival order.** Several fires of one pipeline may be in flight at once. Bursts stay in arrival order exactly when
  every fire that is put back ends before the first pending event (`BurstsAreInArrivalOrderIff`); that is so when a fire
  with events is never put back before a newer one with events (`ClaimOrderIff`), and otherwise a run can be told the
  second event before the first (`PutBackOutOfTurn`).
* **Cron slots.** `latest_slot` looks for the last slot before `now` plus one second, although its text speaks of slots
  due by `now`. With a fractional `now` it can name a slot that is not due yet, and then two claims can be recorded for
  the same slot (`OvershootRepeatsSlot`). Recorded slots never go back (`SlotsNeverGoBack`) and strictly increase exactly
  when no claim overshoots (`CronSlotsIncreaseIff`).
* **Redaction.** The class promises that every exact value is replaced. For values that touch no marker, which values
  without brackets never do, that holds exactly when no value is left inside a marker (`CompleteIff`); it holds whenever
  no value touches or occurs in a marker, which can be checked on the names and values alone (`CompleteWhenUntouched`).
  A value that occurs in its own marker stays readable (`ValueInItsMarkerLeaks`), and so does one that touches the marker
  of a later rule wherever the rest of it stands undisturbed (`TouchingValueLeaks`, `ValueWithBracketLeaks`). Such a value
  can also be taken out of a text it was never in (`MarkerIsCutUp`).
* **Redelivery.** An event takes effect twice exactly when it is redelivered after its record was pruned
  (`EffectsAreOnceUnlessLate`), and then it is counted twice (`LateRedeliveryCountsTwice`).
* **References can dangle.** Only saved versions keep a task from being deleted, so a pipeline draft can refer to a
  deleted task (`DraftCanDangle`). A save reads its references and stores the version with separate store calls; every
  saved reference resolves exactly when no task a save names is deleted between the read and the insertion
  (`SavedResolveIffNoneDeletedMeanwhile`), and a run in which one is leaves a dangling version
  (`SavedReferenceDangles`).
* **Routes.** `parseRoute` inverts `routePath` exactly on canonical routes (`RouteRoundTripIff`).

## Model

| member | source | states |
|---|---|---|
| Triggers.MatchesEvent | src/booth_pipeline/triggers.py:112-120 | the loop answers whether any of the trigger's matches covers the event |
| Triggers.OwnRunIdIff | src/booth_pipeline/triggers.py:139-142 | a principal names run `id` of the workspace exactly when it is the prefix followed by a non-empty `id` |
| Triggers.RecordSays | src/booth_pipeline/triggers.py:58-65 | what a run is told of an event |
| Triggers.MatchCovers | src/booth_pipeline/triggers.py:112-120 | a storage match covers the objects of its backend under its prefix, an API match the listed APIs and those with its slug prefix |
| Triggers.ConcernsIff | src/booth_pipeline/triggers.py:123-136 | of the events a match covers a trigger leaves out exactly those known to be older than it |
| Triggers.EventTriggerState.Ingest | src/booth_pipeline/triggers.py:163-183 | the row after one event and the outcome, for every combination of own run, activity and settings |
| Triggers.EventTriggerState.OnDue | src/booth_pipeline/triggers.py:186-201 | a due row fires with what it gathered, queues a follow-up, or counts the burst as skipped |
| Triggers.EventTriggerState.OnRunFinished | src/booth_pipeline/triggers.py:204-210 | a queued follow-up gets a timer no sooner than the minimum gap |
| Triggers.EventTriggerState.Requeue | src/booth_pipeline/triggers.py:213-223 | a claimed fire goes back in front of what came meanwhile, or is counted as skipped |
| Triggers.EventTriggerState.OnMissedEvents | src/booth_pipeline/triggers.py:226-234 | an outage sets the flag and a timer unless one is set or a follow-up is queued |
| Triggers.EventTriggerState.ResetPending | src/booth_pipeline/triggers.py:237-240 | nothing is left waiting; the counters and the last fire stay |
| Triggers.IngestCases | src/booth_pipeline/triggers.py:145-183 | an event that waits joins the burst and sets the timer for the debounce or the longest wait, whichever is first, and never before the gap; behind a running run it is owed or skipped; an own run's changes a counter only |
| Triggers.DueCases | src/booth_pipeline/triggers.py:186-201 | a due row fires with all it holds and is empty, becomes a follow-up with all it holds, or is counted as skipped |
| Triggers.ReleaseAndOutageCases | src/booth_pipeline/triggers.py:204-234 | a released follow-up and an outage set the timer for now or the end of the gap; an outage moves no timer that is set |
| TriggerProtocol.EveryEventIsInOnePlace | src/booth_pipeline/triggers.py:163-240 | over any run, each matching event is in exactly one of: own-run, skipped, pending, a claimed fire, a created run, discarded |
| TriggerProtocol.CountsAddUp | src/booth_pipeline/triggers.py:153-223 | the same in the row's own counters: they add up to the events ingested |
| TriggerProtocol.RunsAreToldTheirBurst | src/booth_pipeline/triggers.py:153-156 | every created run is told the first 100 events of its burst, in order, and the burst's full size |
| TriggerProtocol.TellsRequeued | src/booth_pipeline/triggers.py:213-223 | putting a fire back before a burst that kept growing still tells the first 100 of the whole |
| TriggerProtocol.NoLostWakeUp | src/booth_pipeline/triggers.py:163-240 | in every reachable state undelivered events or a missed-events flag come with a timer or a queued follow-up |
| TriggerProtocol.FireTimeIsBounded | src/booth_pipeline/triggers.py:145-150 | pending time and timer are set together, and the timer lies between the minimum gap and the longest wait, whatever the clocks say |
| TriggerProtocol.FiresAreSpaced | src/booth_pipeline/triggers.py:186-201 | any two claimed fires are at least the gap apart, n of them n-1 gaps |
| Debounce.TimersAreDebounced | src/booth_pipeline/triggers.py:145-150 | over any run a set timer is at most the longest debounce after the last event, or after the wait began, or at most the gap after the last fire |
| Outages.OutagesAreTold | src/booth_pipeline/triggers.py:186-234 | over any run the flag of the row, of a claimed fire and of a created run says exactly whether an outage is among what it stands for, and every outage is in exactly one place |
| TriggerProtocol.BurstsAreInArrivalOrderIff | src/booth_pipeline/triggers.py:213-223 | with any number of fires in flight, every burst of a run is in arrival order exactly when each fire put back ends before the first pending event |
| TriggerProtocol.ClaimOrderIff | src/booth_pipeline/triggers.py:213-223 | fires in flight and the pending burst stay in claim order, each burst in arrival order, exactly when a fire with events is never put back before a newer one with events |
| TriggerProtocol.PutBackOutOfTurn | src/booth_pipeline/triggers.py:213-223 | a run with two fires in flight, the older put back first, ends with a run told the second event before the first |
| AtomicStore.StoreFollowsProtocol | src/booth_pipeline/store/memory.py:338-399 | any run of the atomic store is a run of the trigger protocol over the same events and fires, every protocol step performed by a step of the store |
| AtomicStore.ReachableStatesAreAwake | src/booth_pipeline/store/memory.py:356-380 | no reachable store state has something to deliver and nothing that will deliver it |
| AtomicStore.StoredRunsAreToldTheirBurst | src/booth_pipeline/service.py:632-644 | every stored event-fired run carries exactly a burst of the events heard, also after a requeue |
| AtomicStore.EventsHeardAddUp | src/booth_pipeline/store/memory.py:338-380 | events heard = ignored + skipped + pending + in flight + left with runs or for good |
| AtomicStore.StoreKeepsTime | src/booth_pipeline/store/memory.py:356-372 | with settings within bounds and any clocks, the row's timer lies between the minimum gap and the longest wait and within the debounce of the last event, and claimed fires are the gap apart |
| AtomicStore.HeardEventDoes | src/booth_pipeline/store/memory.py:338-354 | what an event that concerns the trigger does to the row of the store, the earliest and latest the timer can be included |
| AtomicStore.OutagesAreTold | src/booth_pipeline/store/memory.py:392-399 | over any run of the store a stored run's missed-events flag says exactly whether its burst holds an outage, and no outage is lost or told twice |
| AtomicStore.QueuedIsBackedIff | src/booth_pipeline/store/memory.py:136-153 | over a run of either store a queued follow-up without a timer always has an active run exactly when no trigger is turned on over a follow-up that nothing owes |
| AtomicStore.SecondClauseIsDeadIff | src/booth_pipeline/store/memory.py:356-361 | exactly then the claim's second clause never picks anything |
| AtomicStore.DisabledIsQuietAndQueuedIsBacked | src/booth_pipeline/store/postgres.py:556-564 | with PostgreSQL's guard, or with no fire put back on a disabled trigger, a disabled trigger is quiescent and no trigger is turned on over an owed follow-up |
| AtomicStore.MemoryDisabledIsQuietIff | src/booth_pipeline/store/memory.py:374-380 | in the memory store a disabled trigger stays quiescent over a run exactly when no fire is put back on it while disabled |
| AtomicStore.MemoryReachesQueuedWithoutRun | src/booth_pipeline/store/memory.py:374-380 | a concrete run of the memory store reaches a queued follow-up with no timer and no active run |
| AtomicStore.AtMostOneActiveRun | src/booth_pipeline/store/memory.py:417-424 | with exclusive creations only, at most one run is queued or running in every reachable state |
| AtomicStore.TerminalIsFinal | src/booth_pipeline/store/memory.py:469-479 | a terminal run's record never changes again; only retention removes it |
| AtomicStore.FinishedOnce | src/booth_pipeline/store/memory.py:469-479 | a run that was active and is terminal later was finished by a winning finish in between |
| AtomicStore.OneFinishWins | src/booth_pipeline/store/memory.py:469-473 | no two finishes of the same run both win |
| AtomicStore.OnlyMarkStarts | src/booth_pipeline/store/memory.py:445-449 | a run becomes running only by being marked, with that worker and that time |
| AtomicStore.PruneRemovesIff | src/booth_pipeline/store/memory.py:457-467 | a run goes exactly when retention names it and it has ended |
| MemoryStore.MemoryStore.IngestTriggerEvent | src/booth_pipeline/store/memory.py:338-354 | each concerned pipeline's row and outcome, the sequence number recorded, nothing at all on a redelivery |
| MemoryStore.MemoryStore.ClaimDueEventTriggers | src/booth_pipeline/store/memory.py:356-372 | the batch is the front of everything due, by time and then by pipeline id; its rows and fires are those of the per-pipeline claim |
| MemoryStore.MemoryStore.RequeueEventTrigger | src/booth_pipeline/store/memory.py:374-380 | the fire put back, and released at once when nothing is running |
| MemoryStore.MemoryStore.EventTriggersMissedEvents | src/booth_pipeline/store/memory.py:392-399 | every enabled trigger is told, and how many there are |
| MemoryStore.MemoryStore.PruneSeenTriggerEvents | src/booth_pipeline/store/memory.py:409-414 | exactly the records older than the limit go, and how many |
| MemoryStore.MemoryStore.CreateRun | src/booth_pipeline/store/memory.py:417-424 | refused exactly when exclusive and an active run exists |
| MemoryStore.MemoryStore.MarkRunning | src/booth_pipeline/store/memory.py:445-449 | only a queued run starts running |
| MemoryStore.MemoryStore.PruneRuns | src/booth_pipeline/store/memory.py:457-467 | the runs that ended longest ago go, at most the limit, and how many |
| MemoryStore.MemoryStore.CreatePipeline | src/booth_pipeline/store/memory.py:64-72 | refused exactly when the workspace has the name; a new pipeline has no trigger |
| MemoryStore.MemoryStore.FinishRun | src/booth_pipeline/store/memory.py:469-479 | the first finish wins, and releases a follow-up owed |
| MemoryStore.MemoryStore.UpdateSchedule | src/booth_pipeline/store/memory.py:136-153 | new settings; a trigger turned off or removed waits for nothing |
| MemoryStore.MemoryStore.DeletePipeline | src/booth_pipeline/store/memory.py:119-134 | the pipeline goes with its row and its runs |
| MemoryStore.IngestEach | src/booth_pipeline/store/memory.py:346-354 | the loop over pipelines gives each concerned one its own row and outcome |
| MemoryStore.AllDue | src/booth_pipeline/store/memory.py:356-361 | everything due, each once, fires by time and then by id before the follow-ups owed |
| MemoryStore.ClaimEach | src/booth_pipeline/store/memory.py:361-372 | the loop over a batch changes each row and collects the fires in order |
| MemoryStore.IngestProjects | src/booth_pipeline/store/memory.py:338-354 | to each pipeline an ingest is the per-pipeline one, to pipelines of other workspaces nothing |
| MemoryStore.ClaimProjects | src/booth_pipeline/store/memory.py:356-372 | to each pipeline a claim is the per-pipeline one if it is in the batch, else nothing |
| MemoryStore.FinishProjects | src/booth_pipeline/store/memory.py:469-479 | to each pipeline a finish is the per-pipeline one |
| MemoryStore.RequeueProjects | src/booth_pipeline/store/memory.py:374-380 | to its pipeline a requeue is the per-pipeline one, to the others nothing |
| MemoryStore.MarkProjects | src/booth_pipeline/store/memory.py:445-449 | to each pipeline a mark is the per-pipeline one |
| MemoryStore.DeleteProjects | src/booth_pipeline/store/memory.py:119-134 | a deletion takes exactly the one pipeline and leaves the others as they were |
| MemoryStore.BatchTakesSoonest | src/booth_pipeline/store/memory.py:359-361 | a due fire left behind by a batch comes after every one it takes, by time and then by id, and the batch is full |
| MemoryStore.RetiredAreTheOldest | src/booth_pipeline/store/memory.py:457-467 | only runs that ended before the limit go, and one of these stays only when as many as allowed that ended no later have gone |
| MemoryStore.AddIsRefusedIff | src/booth_pipeline/store/memory.py:64-72 | a new pipeline is not made exactly when its workspace has one of that name |
| MemoryStore.BatchTakesTheDue | src/booth_pipeline/store/memory.py:356-361 | what is in a batch: a time that has come, or a follow-up with no timer and nothing running |
| MemoryStore.OwnRunsAreIgnored | src/booth_pipeline/store/memory.py:338-354 | an event written by one of a pipeline's own runs leaves what that pipeline waits for alone |
| MemoryStore.OthersAreHeard | src/booth_pipeline/store/memory.py:338-354 | any other event that concerns a pipeline is heard, also one written by another pipeline's run |
| MemoryRuns.WorldFollowsAtomicStore | src/booth_pipeline/store/memory.py:338-479 | for every pipeline any run of the in-memory store, with the fires schedulers hold, is state by state a run of the per-pipeline machine |
| MemoryRuns.EventProjects | src/booth_pipeline/store/memory.py:338-479 | every operation is to each pipeline the one step it is said to be, or nothing |
| MemoryRuns.FlightsRemove | src/booth_pipeline/scheduler.py:81-84 | taking one claimed fire out of those in flight takes it out of its pipeline's, and out of no other's |
| MemoryRuns.EveryRowIsAwake | src/booth_pipeline/store/memory.py:356-380 | whatever a pipeline of the store has to deliver has a timer or a queued follow-up |
| MemoryRuns.EveryRunIsToldItsBurst | src/booth_pipeline/service.py:632-644 | every event-fired run in the store carries the first 100 and the size of a burst of events that were ingested |
| MemoryRuns.OneActiveRunEach | src/booth_pipeline/store/memory.py:417-424 | a pipeline whose runs are created exclusively has at most one active, whatever happens to the others |
| MemoryRuns.WorldEventsAddUp | src/booth_pipeline/store/memory.py:119-134 | for every pipeline of a run, deleted ones included, events taken in = what its row accounts for + in flight + left with runs, for good, or with the row when it was deleted |
| MemoryRuns.WorldTerminalIsFinal | src/booth_pipeline/store/memory.py:469-479 | a terminal run's record never changes again, whatever happens to its pipeline |
| MemoryRuns.WorldOneFinishWins | src/booth_pipeline/store/memory.py:469-473 | over a whole run of the store no two finishes of one run both win |
| MemoryRuns.WorldNamesAreUnique | src/booth_pipeline/store/memory.py:64-72 | over any run no two pipelines of a workspace have the same name |
| PostgresStore.LockedNext | src/booth_pipeline/store/postgres.py:474-491 | one transaction holds or creates the trigger row at a time and its copy is the committed row, so no update is lost |
| PostgresStore.DisabledIsQuiescentIff | src/booth_pipeline/store/postgres.py:224-253 | over any interleaving a disabled trigger waits for nothing exactly when no transaction that read it enabled commits something that waits after it was turned off, and no turning-off that found no row commits over one that waits |
| PostgresStore.TurnedOffForGoodIff | src/booth_pipeline/store/postgres.py:224-253 | no one who read a disabled trigger enabled is left to write its row, and it is quiescent, exactly when no turning-off that found no row commits while someone has the row or it waits |
| PostgresStore.FoundRowsAreReset | src/booth_pipeline/store/postgres.py:246-252 | when every turning-off finds the row a disabled trigger is quiescent throughout |
| PostgresStore.DisabledTriggerWaits | src/booth_pipeline/store/postgres.py:474-480 | an interleaving of the first ingest with a turning-off leaves the event and its timer on the disabled trigger |
| PostgresStore.AtMostOneActive | src/booth_pipeline/store/postgres.py:607-633 | whatever the interleaving, exclusive creations and the records of dropped slots leave at most one active run |
| PostgresStore.InterleavingFollowsProtocol | src/booth_pipeline/store/postgres.py:497-564 | any interleaving commits a run of the trigger protocol over exactly the events its ingests and the fires its claims commit, every protocol step performed by a commit |
| PostgresStore.StoredRunsAreToldTheirBurst | src/booth_pipeline/store/postgres.py:607-628 | whatever the interleaving every event-fired run was told the first 100 and the size of a burst of the committed events |
| PostgresStore.EventsHeardAddUp | src/booth_pipeline/store/postgres.py:497-564 | committed events = ignored + skipped + pending + in flight + left with runs or for good |
| PostgresStore.StoreKeepsTime | src/booth_pipeline/store/postgres.py:527-554 | the same bounds on the committed timer, the debounce among them, and the gap between fires whose claims commit, over any interleaving |
| PostgresStore.CommittedEventDoes | src/booth_pipeline/store/postgres.py:497-525 | what a committed ingest does to the committed row, the earliest and latest the timer can be included |
| PostgresStore.OutagesAreTold | src/booth_pipeline/store/postgres.py:527-564 | whatever the interleaving a run's missed-events flag says exactly whether its burst holds a committed outage |
| PostgresStore.UndeliveredIsClaimable | src/booth_pipeline/store/postgres.py:527-554 | what is to be delivered can be claimed once its time has come, or at any time if nothing is running |
| PostgresStore.QueuedWithoutRunIsReachable | src/booth_pipeline/store/postgres.py:683-698 | an ingest that read a run as active and a finish that saw nothing queued leave a follow-up with no run |
| PostgresStore.SecondClauseRescues | src/booth_pipeline/store/postgres.py:527-554 | a claim then starts the run with everything pending, or sets the timer to the end of the gap |
| SerialPostgres.IngestIsAtomic | src/booth_pipeline/store/postgres.py:497-525 | with no other transaction open an ingest does to the pipeline what the memory store's does |
| SerialPostgres.ClaimIsAtomic | src/booth_pipeline/store/postgres.py:527-554 | a claim picks the pipelines the memory store would, leaves the same row and hands out the same fire |
| SerialPostgres.RequeueIsAtomic | src/booth_pipeline/store/postgres.py:556-564 | a fire is put back as in the memory store, but only on a trigger that is on |
| SerialPostgres.MissIsAtomic | src/booth_pipeline/store/postgres.py:576-587 | an outage is noted as in the memory store |
| SerialPostgres.FinishIsAtomic | src/booth_pipeline/store/postgres.py:683-698 | a finish goes ahead exactly when it wins, ends the run and releases a follow-up owed |
| SerialPostgres.CreateIsAtomic | src/booth_pipeline/store/postgres.py:607-633 | a creation is refused exactly when it is exclusive and a run is active; else the run is there and was told its fire |
| SerialPostgres.ConfigureIsAtomic | src/booth_pipeline/store/postgres.py:224-253 | new settings, and a trigger turned off waits for nothing |
| EventBus.TriggerIngest.Handle | src/booth_pipeline/event_bus.py:72-84 | malformed events are counted and dropped, redeliveries answered with none, a wake exactly when something became pending |
| EventBus.Consume | src/booth_pipeline/event_bus.py:210-219 | a message is acknowledged only when it is malformed or its sequence number is recorded |
| EventBus.DeliveriesReplayOnce | src/booth_pipeline/event_bus.py:204-219 | however deliveries fail, repeat and interleave, the store ends as if each number came once, at its first commit, provided none is redelivered after its record was pruned |
| EventBus.EffectsAreOnceUnlessLate | src/booth_pipeline/event_bus.py:236-237 | an event takes effect twice exactly when it is redelivered after its record was pruned |
| EventBus.RecordKept | src/booth_pipeline/store/memory.py:338-343 | a number is recorded only once delivered, and stays recorded with its first commit's time until a prune forgets it |
| EventBus.LateRedeliveryCountsTwice | src/booth_pipeline/event_bus.py:236-237 | a history in which one event is delivered, forgotten and delivered again counts it twice |
| EventBus.OpIgnoresSeen | src/booth_pipeline/store/memory.py:356-479 | no other operation of the store reads or writes that record |
| Schedule.IntervalSlotIsLatest | src/booth_pipeline/schedule.py:59-73 | an interval's slot is the greatest instant due by now a whole number of intervals after the first |
| Schedule.CronSlotIsDueIff | src/booth_pipeline/schedule.py:59-73 | a cron slot is due by now exactly when no slot lies within the next second, and is then the latest one |
| Schedule.CronSlotInWholeSeconds | src/booth_pipeline/schedule.py:59-73 | in whole seconds it is always the latest one due |
| Schedule.ClaimMovesPastNow | src/booth_pipeline/schedule.py:46-56 | the next fire is strictly after now |
| Schedule.NextFireIsTheNext | src/booth_pipeline/schedule.py:46-56 | the next fire is the first slot counted from the claim that comes after it |
| Schedule.NoSlotIsSkipped | src/booth_pipeline/schedule.py:46-56 | over any claims no slot lies between a claim and the next fire it sets |
| Schedule.IntervalKeepsPace | src/booth_pipeline/schedule.py:56-56 | over any claims of an interval none of which is later than a delay, the k-th next fire is at most k intervals and k delays after the first |
| Schedule.IntervalSlotsNeverRepeat | src/booth_pipeline/service.py:584-600 | over successive claims of an interval the recorded slots strictly increase |
| Schedule.CronSlotsNeverRepeat | src/booth_pipeline/service.py:584-600 | the same for cron with whole-second clock readings |
| Schedule.CronSlotRepeatsIff | src/booth_pipeline/schedule.py:66-73 | two claims in a row name the same slot exactly when the first overshot and the second came more than a second before the slot after |
| Schedule.SlotsNeverGoBack | src/booth_pipeline/service.py:584-600 | over all claims of any trigger and any clock readings the recorded slots never go back |
| Schedule.CronSlotsIncreaseIff | src/booth_pipeline/schedule.py:66-73 | over all claims of a cron trigger the recorded slots strictly increase exactly when no claim overshoots |
| Schedule.OvershootRepeatsSlot | src/booth_pipeline/schedule.py:66-73 | a slot every minute, claimed at 59.5 s and 60.1 s: both runs are for second 60 |
| Schedule.OneBatch | src/booth_pipeline/store/memory.py:316-318 | ties are broken by the id, so there is only one batch |
| Schedule.BatchTakesTheDue | src/booth_pipeline/store/memory.py:316-318 | only due pipelines are in a batch, and one left behind means that it is full |
| Schedule.ScheduleStore.ClaimDuePipelines | src/booth_pipeline/store/memory.py:314-323 | the soonest due pipelines, each as it was, and each moved to the first slot after now |
| Sorting.SortIds | src/booth_pipeline/store/memory.py:316-318 | the ids of a set, each once, by key and then by id |
| Sorting.ByKeyIsUnique | src/booth_pipeline/store/memory.py:359-359 | only one sequence of given ids is in that order |
| Scheduler.StartScheduled | src/booth_pipeline/service.py:584-630 | a claimed slot leaves exactly one run for it, queued or skipped, unless there is no version to run |
| Scheduler.StartEventFired | src/booth_pipeline/service.py:632-644 | a claimed fire is carried by a new run, put back, or gone when there is no version to run |
| Scheduler.TickSchedules | src/booth_pipeline/scheduler.py:72-80 | every claimed slot of a pipeline with a version leaves exactly one run, queued or skipped, with the slot it is for, the queued ones are reported, and no claimed pipeline is still due |
| Scheduler.TickEvents | src/booth_pipeline/scheduler.py:72-86 | with no other actor in between every claimed fire with a version becomes a run that carries it, and none is put back |
| Scheduler.Tick | src/booth_pipeline/scheduler.py:72-86 | slots, then the event fires of the store those left, then the sweep; what is reported is what was started |
| Scheduler.StartsSurviveTheSweep | src/booth_pipeline/scheduler.py:72-86 | a run a tick reports is there when the tick ends, and still queued exactly when the queue timeout is not negative |
| Scheduler.Sweep | src/booth_pipeline/runs.py:373-385 | every stale run is failed with its reason, exactly once, and only the follow-ups held back change besides |
| Scheduler.SweepTakes | src/booth_pipeline/store/memory.py:499-508 | a run with an old heartbeat or too long in the queue is failed, with its reason; every other run survives as it is |
| Scheduler.StartIsForLatestSlot | src/booth_pipeline/service.py:584-600 | the slot recorded with a start is the latest one due, or the one less than a second ahead |
| Scheduler.TickRunsSay | src/booth_pipeline/scheduler.py:72-86 | what the runs a tick creates say: their pipeline, status, slot or fire |
| Topology.Downstream | src/booth_pipeline/model.py:599-605 | for every key the references naming it, in declaration order, with repetition |
| Topology.DependentsAreEdges | src/booth_pipeline/model.py:599-605 | which are exactly its edges, each once, when nothing is listed twice |
| Topology.TopologicalOrder | src/booth_pipeline/model.py:608-626 | succeeds exactly on acyclic specs with known dependencies; then a permutation with dependencies first and ties by declaration; else exactly the keys on or downstream of a cycle or a missing dependency |
| Topology.OrderIsUnique | src/booth_pipeline/model.py:608-626 | that order is the only one |
| Topology.ValidateStructure | src/booth_pipeline/model.py:629-660 | accepts exactly the non-empty sound specs, and names the first problem otherwise |
| Topology.CheckDeps | src/booth_pipeline/model.py:650-658 | one reference's checks in order: repeated, self, unknown |
| Topology.StuckOnCycles | src/booth_pipeline/model.py:623-625 | with known dependencies the keys named are exactly those on a cycle or downstream of one |
| Canvas.FindPath | web/src/graph.ts:158-172 | the search terminates on any draft and answers whether there is a path |
| Canvas.CheckConnection | web/src/graph.ts:145-156 | each reason for refusing exactly when it applies, in order |
| Canvas.ConnectCyclicIff | web/src/graph.ts:154-176 | on any draft connecting makes a cycle where there was none exactly when the target already reaches the source |
| Canvas.ConnectSoundIff | web/src/graph.ts:148-176 | on a sound draft the accepted connections are exactly those that keep it sound |
| Canvas.DisconnectKeepsSound | web/src/graph.ts:178-180 | disconnecting keeps a draft sound, and the edge is gone |
| Canvas.RemoveKeepsSound | web/src/graph.ts:198-200 | removing a reference keeps a draft sound, and only that key goes |
| Canvas.RemoveEmptiesIff | web/src/graph.ts:198-200 | it leaves nothing exactly when nothing else was there |
| Canvas.RenameSoundIff | web/src/graph.ts:202-209 | renaming an existing key keeps a draft sound exactly when the new key is free, and then the edges are exactly the old ones under their new names |
| Canvas.EditsKeepNodes | web/src/graph.ts:174-209 | connecting, disconnecting and renaming leave every node as it is but for its key and its dependencies |
| Canvas.RemoveKeepsNodes | web/src/graph.ts:198-200 | removing leaves the other nodes in order as they are, but for their dependency on the one removed |
| Canvas.UniqueKey | web/src/graph.ts:76-82 | the loop stops, at the first free number, no later than one past the number of keys |
| Canvas.DuplicateRef | web/src/graph.ts:182-196 | a copy of the first such node under a free key, just below it, or nothing for an unknown key |
| Canvas.CopyIs | web/src/graph.ts:182-196 | a copy has its original's task, version, overrides and dependencies |
| Canvas.DuplicateKeepsSound | web/src/graph.ts:182-196 | a copy keeps a draft sound and nothing depends on it |
| Canvas.CopyKeyIsValid | web/src/graph.ts:185-196 | the copy's key meets the key grammar |
| Canvas.HasOverlappingPositions | web/src/graph.ts:129-137 | whether two references share a position |
| Layout.Depths.DepthOf | web/src/graph.ts:56-66 | the recursion ends on any draft; without cycles the memoised depth is the longest path |
| Layout.AutoLayout | web/src/graph.ts:52-74 | any draft: same references, every two of them a whole gap apart, each below the earlier ones of its column; without cycles the column is the longest path |
| Layout.EdgesPointRight | web/src/graph.ts:48-51 | every edge between nodes points to a strictly larger column |
| Redactor.Redactor.Add | src/booth_pipeline/task_secrets.py:180-186 | the first name of a value stays, empty values are left out, the order is longest first |
| Redactor.Redactor.RedactText | src/booth_pipeline/task_secrets.py:191-196 | the loop applies every rule in turn |
| Redactor.CompleteIff | src/booth_pipeline/task_secrets.py:171-196 | for values that touch no marker: no value is left in any output exactly when none is left inside a marker |
| Redactor.CompleteWhenUntouched | src/booth_pipeline/task_secrets.py:171-196 | when no value touches or occurs in a marker, brackets or not, no value is left in any output and each value becomes its marker |
| Redactor.CompleteWhenMarkersFree | src/booth_pipeline/task_secrets.py:171-196 | for values without brackets it is enough that none occurs in any "secret NAME": complete and idempotent on every input |
| Redactor.ReplaceAround | src/booth_pipeline/task_secrets.py:191-196 | replacing a value that does not touch a marker works on what is before, inside and after it separately |
| Redactor.TextTakesOutOnlyValues | src/booth_pipeline/task_secrets.py:191-196 | for values that touch no marker: the output is the input with occurrences of values replaced by their own markers and nothing else changed |
| Redactor.ValueIsReplacedWhole | src/booth_pipeline/task_secrets.py:171-173 | any registered value on its own is replaced whole even when it contains others: what is left is its marker as the later rules leave it |
| Redactor.CompleteOnlyIfMarkersClean | src/booth_pipeline/task_secrets.py:171-196 | for any values: when no value is left in any output, none is left in a marker as the later rules leave it |
| Redactor.MarkerIsCutUp | src/booth_pipeline/task_secrets.py:191-196 | a value that touches a marker is taken out of a text it was never in, and the output is no longer the text with values replaced by markers |
| Redactor.CompleteOnlyIf | src/booth_pipeline/task_secrets.py:191-196 | for any values: when no value is left, no marker put where nothing else happens puts a value together whose turn has passed |
| Redactor.TouchingValueLeaks | src/booth_pipeline/task_secrets.py:191-196 | a value that ends in a prefix of a later rule's marker, or starts with the end of one, leaks where the rest of it stands undisturbed |
| Redactor.ValueInItsMarkerLeaks | src/booth_pipeline/task_secrets.py:191-196 | a value that occurs in its own marker stays readable |
| Redactor.ValueWithBracketLeaks | src/booth_pipeline/task_secrets.py:191-196 | a value with a bracket can be put together by another's marker |
| Redactor.StringsAreRedacted | src/booth_pipeline/task_secrets.py:201-211 | every string and object key of a redacted JSON value is one of the original's, redacted |
| Redactor.ValueIsClean | src/booth_pipeline/task_secrets.py:201-211 | where text is complete no string or key anywhere in it contains a value |
| Redactor.FirstNameStays | src/booth_pipeline/task_secrets.py:180-186 | a value added again under another name keeps its first |
| Redactor.RedactionKeepsShape | src/booth_pipeline/task_secrets.py:201-211 | redaction drops nothing: a list keeps its length, an object each entry that no later one replaces, and what is no string stays |
| DriverLog.LogCopy.Emit | src/booth_pipeline/runners/_spark_client.py:205-215 | after any chunk the lines handled are those finished in all the text so far |
| DriverLog.LogCopy.Poll | src/booth_pipeline/runners/_spark_client.py:217-226 | a chunk is taken in and the cursor moves; without a cursor nothing more is taken until the end |
| DriverLog.LogCopy.Finish | src/booth_pipeline/runners/_spark_client.py:228-239 | the last unfinished line counts as it stands; what is printed with and without a cursor |
| DriverLog.LogCopy.Output | src/booth_pipeline/runners/_spark_client.py:241-246 | the last marker among the lines kept |
| DriverLog.SplitRebuilds | src/booth_pipeline/runners/_spark_client.py:205-208 | splitting loses nothing and leaves no line break in a line |
| DriverLog.ChunkAdds | src/booth_pipeline/runners/_spark_client.py:205-210 | a chunk adds exactly the lines it completes, wherever it starts and ends |
| DriverLog.CopyRun | src/booth_pipeline/runners/_spark_client.py:205-246 | when every poll succeeds, any chunking prints what splitting the whole log once gives without the markers, and returns its last marker of the last 500 lines |
| DriverLog.LastMarkerIsOutputIff | src/booth_pipeline/runners/_spark_client.py:211-246 | a log's last marker is the result exactly when it is one of its last 500 lines |
| DriverLog.CopiedOnce | src/booth_pipeline/runners/_spark_client.py:217-226 | with the cursor what was taken in is the log up to the cursor |
| Recorder.StoreRecorder.Emit | src/booth_pipeline/runs.py:98-113 | a line is numbered and buffered, or dropped at the cap with one note |
| Recorder.EveryLineIsInOnePlace | src/booth_pipeline/runs.py:98-131 | each number given is in exactly one place: stored, lost, taken or buffered |
| Recorder.TaskLinesAddUp | src/booth_pipeline/runs.py:98-110 | offered = accepted + dropped, accepted within the cap, the note there exactly once exactly if something was dropped |
| Recorder.FlushedLogIsComplete | src/booth_pipeline/runs.py:115-131 | with everything flushed and nothing failed the stored log in order is every line emitted |
| Recorder.StoredLinesWereEmitted | src/booth_pipeline/runs.py:115-122 | even with failures what is stored was emitted, unchanged and once |
| Recorder.RunLog.AppendLogs | src/booth_pipeline/store/memory.py:537-543 | a number already there is not stored again |
| Recorder.RetryIsHarmless | src/booth_pipeline/store/memory.py:537-543 | storing a batch twice is storing it once |
| Recorder.RunLog.ReadAll | src/booth_pipeline/store/memory.py:545-553 | paging with the cursor ends and rebuilds the whole log in order |
| Recorder.NextNumber | src/booth_pipeline/runs.py:397-406 | the number after the last stored line |
| Recorder.EmitSays | src/booth_pipeline/runs.py:98-113 | a line below the cap is buffered as it was emitted under the next number; above it the line is dropped and counted, and the first time a note is buffered instead |
| References.ResolveTaskConfigs | src/booth_pipeline/resolve.py:56-81 | a config for every node, or the first reference that does not resolve or whose overrides are too large |
| References.Library.CheckTaskRefs | src/booth_pipeline/service.py:254-263 | the first reference that does not resolve, if any |
| References.ConfigsAre | src/booth_pipeline/resolve.py:56-81 | each node gets what its reference means now with its own overrides |
| References.NodeParamsAre | src/booth_pipeline/resolve.py:56-69 | a node's params are its own overrides where it has them and the task's elsewhere |
| References.ConfiguredIff | src/booth_pipeline/resolve.py:56-81 | a spec gets its configs exactly when every reference resolves and every node's overrides give something that fits |
| References.Library.Prepare | src/booth_pipeline/service.py:245-264 | passes exactly the sound specs whose references resolve, whose overrides fit and that compile, and names what is wrong otherwise |
| References.Library.SaveVersion | src/booth_pipeline/service.py:197-205 | the next version number, the version and the draft, or nothing |
| References.Library.SaveTaskVersion | src/booth_pipeline/store/memory.py:266-275 | versions are numbered one after another |
| References.Library.DeleteTask | src/booth_pipeline/store/memory.py:254-264 | refused exactly when a saved version refers to the task |
| References.SavedReferencesResolve | src/booth_pipeline/store/memory.py:254-264 | over any operations every reference of every saved version resolves, and saved versions are sound |
| References.DraftReferenceResolvesIff | src/booth_pipeline/service.py:207-213 | a draft's reference resolves exactly when its task has not been deleted |
| References.PinnedReferenceIsStable | src/booth_pipeline/resolve.py:35-53 | a pinned reference means the same config for as long as its task exists |
| References.PinMeansWhatWasSaved | src/booth_pipeline/resolve.py:50-53 | over any run a reference pinned to version n means the config that the save of version n stored |
| References.LatestMeansLastSave | src/booth_pipeline/resolve.py:43-46 | over any run a "latest" reference means the config of the last save of its task, as a version or a draft |
| References.SavedSpecIsKept | src/booth_pipeline/store/memory.py:155-164 | a spec saved as version n is version n for as long as the pipeline is there |
| References.TasksOnlyGrow | src/booth_pipeline/store/memory.py:266-275 | a task's versions are only added to, and a deleted id does not come back |
| References.PipelinesOnlyGrow | src/booth_pipeline/store/memory.py:155-164 | a pipeline's versions are only added to |
| References.DraftCanDangle | src/booth_pipeline/store/memory.py:259-260 | a draft can refer to a deleted task |
| References.SpecResolvesIff | src/booth_pipeline/resolve.py:35-53 | a spec that resolved once resolves later exactly when its tasks are all still there |
| SplitSaves.SavedResolveIffTasksStillThere | src/booth_pipeline/service.py:197-205 | with other requests between a save's reads and its insertion, every saved reference resolves in every state exactly when each insertion still finds its tasks |
| SplitSaves.SavedResolveIffNoneDeletedMeanwhile | src/booth_pipeline/service.py:197-205 | exactly when no task a save names is deleted between the read of its reference and the save's insertion |
| SplitSaves.SavedReferenceDangles | src/booth_pipeline/store/memory.py:254-264 | a run that reads a save's reference, deletes its task and then stores the version leaves a dangling reference |
| Snapshots.TaskSaves.ResolveTaskCode | src/booth_pipeline/service.py:462-485 | inline, reused or fetched code, and the fetches made |
| Snapshots.TaskSaves.ResolveModules | src/booth_pipeline/service.py:487-499 | each module reused or fetched, up to the first that cannot be |
| Snapshots.TaskSaves.SaveTask | src/booth_pipeline/service.py:413-427 | what a save stores, or nothing, and the fetches made |
| Snapshots.SaveStoresWhatWasSent | src/booth_pipeline/service.py:462-499 | an accepted save stores the code and modules that were sent, in order and under their names, and the rest as it is |
| Snapshots.PinIsStored | src/booth_pipeline/service.py:501-518 | with a catalog that answers a concrete version with that version, a reference to one is stored in it |
| Snapshots.CodeIsFetchedIffNotHeld | src/booth_pipeline/service.py:466-477 | code by reference is fetched exactly when the task holds no snapshot of that reference |
| Snapshots.ModulesAreFetchedIffNotHeld | src/booth_pipeline/service.py:487-499 | the modules fetched are exactly those not held, in order |
| Snapshots.KnownIsLast | src/booth_pipeline/service.py:491-494 | of several held snapshots of one reference the last is taken, as it is |
| Snapshots.AcceptedOnlyIf | src/booth_pipeline/service.py:452-485 | what an accepted save has passed, and what each refusal says: an unanswered fetch, code that does not run, or a config not valid as sent or as resolved |
| Snapshots.SaveIsKept | src/booth_pipeline/service.py:413-427 | an accepted save is the draft and, if asked for, the next version; a refused one stores nothing |
| Snapshots.BasenameIs | src/booth_pipeline/service.py:531-531 | the name shown is what is after the last slash of the path |
| Snapshots.SnapshotsAreFetched | src/booth_pipeline/service.py:462-535 | whatever clients send, every stored source and hash is what a fetch for that reference returned for this task, catalog versions concrete |
| Snapshots.LatestIsFetchedAnew | src/booth_pipeline/service.py:462-478 | "latest" is fetched on every save |
| Snapshots.SnapshotFieldsAreIgnored | src/booth_pipeline/service.py:463-478 | what a client claims about a reference changes nothing |
| Snapshots.UnrelatedEditNeedsNoFetch | src/booth_pipeline/service.py:466-477 | with every reference already held a save makes no fetch and keeps the code snapshot |
| Uri.DecodeEncode | web/src/navigation.ts:70-70 | decodeURIComponent undoes encodeURIComponent on every string |
| Uri.EncodedAs | web/src/navigation.ts:70-70 | which characters stay as they are, and what the others become |
| Uri.FormDecodeEncode | web/src/navigation.ts:43-43 | a query value printed with encodeURIComponent is read back |
| Routes.PrintedAddress | web/src/navigation.ts:72-94 | a printed address splits into its path and query, and the path's parts are the route's |
| Routes.RouteRoundTripIff | web/src/navigation.ts:35-94 | exactly the canonical routes come back from the address they are printed as |

## Left out

- Dagster's execution of a run, retries and skip propagation (`engine.py`): library behaviour.
- HTTP, NATS, Kubernetes, SQL text, subprocess and file plumbing, token minting and AES-GCM sealing.
- `parse_event`: an event arrives parsed or as malformed; ISO 8601 parsing of its time is an outcome, not a computation.
- Seconds between two instants are exact integers of microseconds, not floating-point numbers.
- croniter and time zones: a cron trigger is the ordered set of instants it enumerates, at least a minute apart.
- The scheduler's loop and index (when a tick happens), thread timing, heartbeats: a sweep or a claim may happen at any time.
- Liveness after a crash between a claim and its start: the fire is gone, and the model has a step for that.
- A catalog that answers a concrete version with another one: the service stores the answer's version (`Snapshots.PinIsStored`).
- Replay after a lost consumer: the contact time says nothing about the backlog.
- MemoryStore.MemoryStore.ClaimDueEventTriggers: the order of the follow-ups that nothing released, as for `MemoryStore.AllDue`.
- MemoryStore.AllDue: the follow-ups that nothing released come after the fires in no particular order, where the source has the dict's.
- The order in which an event's outcomes are listed.
- Redactor.CompleteIff: for values that touch a marker only necessary conditions are stated (`CompleteOnlyIf`, `CompleteOnlyIfMarkersClean`), as whether they leak depends on which texts the other values leave undisturbed.
- Redactor.TextTakesOutOnlyValues: is about values that touch no marker; `MarkerIsCutUp` shows it false of others.
- Aliasing and deep copies of records: rows are loaded, changed and saved.
- A deletion ends a pipeline's run in the per-pipeline machines; `MemoryRuns` has it among the store's operations.
- The memory store's check that an operation names the pipeline's own workspace.
- The PostgreSQL store's methods appear as the statements of transactions that interleave, not as methods; its loop over claimed rows is one transaction per row.
- Statement-level snapshot details of `NOT EXISTS` in PostgreSQL, rollbacks of a transaction that wrote the trigger row, and the deletion of a pipeline with its row while others wait for it.
- Scheduler.Sweep: does not model the task-run rows it ends nor the log line it appends, which no other modelled state depends on.
- Task-run rows and their states; early exits that leave some pending.
- The log's task and stream filters, and lines a sweep or a dropped slot appends to a run's log after its end.
- Renaming a pipeline, descriptions, projects, owners, service accounts, and role checks.
- In `SplitSaves` a save reads each reference once; the service reads them twice before it stores, and only the last reads count.
- What makes merged parameters too large (`check_params` renders JSON): whether they fit is a parameter. YAML export.
- `keyFromName`'s folding of a name into the key grammar, and `nextFreePosition`.
- Positions are integers; the canvas allows fractions.
- Decoding a driver log chunk from bytes: a chunk cut inside a multi-byte character is decoded with replacement characters before `LogCopy` sees it.
- LogCopy's tail fallback after the cursor is lost can copy lines again, so `DriverLog.CopiedOnce` is about polls with a cursor.
- Numbers beyond 2^53 in an address, where a JavaScript number is no longer exact; strings with lone surrogates, which encodeURIComponent refuses.
- The browser's own normalisation of an address (dot segments), and `keepProject`.

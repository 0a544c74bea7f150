# Models and proofs for the location HAL

This repository's device tree carries a location stack (`gps/`) whose behaviour is a set of state machines,
multiplexers and paired indexes, each driven by one message at a time. This project models those parts and
proves what their callers rely on over whole runs: every message is one step, and the modem, the Android
framework and the clock are the environment.

Most parts come as two modules. `XSpec` holds the state as a value, one function per message, `Run` over a
sequence of messages, and the lemmas about every run. `X` holds the object the way the code keeps it, with
fields assigned, lists erased while they are walked and arrays edited in place; each of its methods is proved
to take the step its specification function describes (`View()` is the object's abstract value). `XEffects` says
what a step or a run does to each subscriber, trip, session, item or line, in terms of the messages and without
the searches, walks and containers that compute it.

| modules | what they model |
|---|---|
| `AgpsSpec`, `AgpsManagerSpec`, `AgpsEffects`, `AgpsRouting`, `Agps` | the AGPS data-connection machine, its subscriber list, and the manager over two machines |
| `BatchingSpec`, `BatchingEffects`, `Batching` | trips sharing one modem distance counter; batch-full event registration |
| `TrackingSpec`, `TrackingEffects`, `Tracking` | the time-based tracking multiplexer |
| `Bits`, `Blacklist` | satellite masks and lists of satellite ids |
| `GpsLockSpec`, `GpsLock` | the GPS lock under 'Q' and 'P' behaviour |
| `NtripSpec`, `NtripEffects`, `Ntrip` | starting, feeding and stopping the NTRIP correction source |
| `NetworkTable`, `History` | the network handle table and the bounded report histories |
| `Splitting`, `NmeaFields` | texts cut at a separator; the field splitter of debug NMEA sentences |
| `SetMapSpec`, `SetMapClass`, `OsObserverSpec`, `OsObserverEffects`, `OsObserver` | the map of sets and the data-item observer |
| `GeofenceSpec`, `GeofenceEffects`, `GeofenceAdapterModel` | the two geofence indexes and breach reports |
| `AdapterArray` | the adapters behind the modem interface |
| `Sorting`, `Sha1SumsSpec`, `Sha1SumsEffects`, `Sha1Sums` | the proprietary-files script: sort, clean, hash |

Several obvious claims are false of the code. Each of these has a lemma that reaches a breaking input by a run
(or names the input, for the pure conversions) and a lemma with the exact condition:

| claim | breaking input | exact condition |
|---|---|---|
| the strong AGPS invariant survives a modem restart | `AgpsSpec.RestartBreaksStrong` | `AgpsSpec.RestartExact`, `RunInvariant` |
| one open success per AGPS subscription | `AgpsSpec.SuccessTwice` | `AgpsSpec.StepOpens`, `OpenSuccessAtMostOnce` |
| no trip completes early: a refused restart | `BatchingSpec.RefusedRestartCompletesEarly` | `BatchingSpec.JoinExact` |
| no trip completes early: a stale report | `BatchingSpec.StaleReportCompletesEarly` | `BatchingSpec.StaleValueExact`, `OnReportExact` |
| no trip completes early: an engine restart | `BatchingSpec.EngineUpCompletesEarly` | `BatchingSpec.EngineUpExact` |
| all three, over runs | the three above | `BatchingSpec.StepExact`, `FaithfulRunsExact` |
| credit is not less than the distance travelled | `BatchingSpec.JoiningLosesDistance` | `BatchingSpec.JoinLossExact`, `StepLossExact`, `RunLosesNothing` |
| credit is exactly the distance travelled | the four above | `BatchingSpec.RecordedStepExact`, `RecordedRunsExact` |
| a client can stop the trip it started | `BatchingSpec.LateJoinerCannotStop` | `BatchingSpec.StartSavesExact`, `UnsavedTripStays` |
| the batch-full event stays registered | `BatchingSpec.FailedStopUnregistered` | `BatchingSpec.FailedStopExact`, `FailedUpdateExact`, `StepRegisters` |
| the tracking interval is the minimum | `TrackingSpec.UpdateCanWaste` | `TrackingSpec.UpdateExact`, `MinimalRunsExact` |
| satellite ids come back | `Blacklist.WholeConstellationChanges` | `Blacklist.IdRoundTrip` |
| a queued lock message leaves the modem right | `GpsLockSpec.LateNfwControlRun` | `GpsLockSpec.LateNfwControl` |
| `GpsLockSpec.LocksAsAsked` | gps/gnss/GnssAdapter.cpp:3477-3550 | over every run the stored and the pushed lock are those the messages ask for: the last configured network-initiated bit or the last control of it while control is supported, and mobile-originated positioning unlocked while enabled |
| the NTRIP source runs whenever it can | `NtripSpec.EraseStarves` | `NtripSpec.PromptExact`, `RunPrompt` |
| the NTRIP daemon follows the started flag | `NtripSpec.EnableOrphans` | `NtripSpec.OrphanExact`, `RunFollows` |
| a first network report lists what is up | `NetworkTable.FirstReportOfLoss` | `NetworkTable.FirstReportExact` |
| `NetworkTable.AllTypesExact` | gps/core/SystemStatus.h:519-567 | the type bits after a report: its own added when a network comes up, taken out when one goes, but nothing except its own left while another network of its type is up |
| the observer's maps are transposes | `OsObserverSpec.UpdateMissesNews` | `OsObserverSpec.UpdateExact`, `MapsStayTransposed` |
| `OsObserverEffects.UpdatedExact` | gps/core/SystemStatusOsObserver.cpp:558-589 | an item is updated exactly when some accepted value of it differs from the one accepted last before, or none was |
| `OsObserverEffects.CacheAsHeard` | gps/core/SystemStatusOsObserver.cpp:299-344 | over every run the cache holds the value accepted last for each item |
| `OsObserverEffects.NewsReachesAskers` | gps/core/SystemStatusOsObserver.cpp:299-344 | after every run of first updates exactly the clients that asked for some item that is news are told, each exactly those, by the messages alone |
| `OsObserverEffects.StepSubscribes` | gps/core/SystemStatusOsObserver.cpp:62-284 | each message subscribes the framework to exactly the items that have their first client and drops exactly those left without |
| keys lead to their geofences | `GeofenceSpec.ReuseLeavesDanglingKey` | `GeofenceSpec.AddThenAnswerExact`, `PairedRunsExact` |
| the geofence indexes hold what the messages say | `GeofenceEffects.StrayRemoved` | `GeofenceEffects.StepHolds`, `RunHolds` |

A refused join is the one case where the exact condition is not on record in general: it depends on how much a
trip had lost before, and `BatchingSpec.RecordsDoNotDecide` gives two faithful runs that agree on every record, the
counter and the modem's answers and of which it breaks only one. `JoinExact` states the condition with that loss,
and without it for the states in which nothing was lost; `RecordedRunsExact` needs records only.

Where code and documentation disagree, the code is followed:

- `LocUnorderedSetMap::update` returns the values that stay (the intersection), not the removed ones that
  gps/core/SystemStatusOsObserver.cpp:155-171 says it works with; so the two maps part after an update of a
  client that already had items.
- The repeated-request test of `handleEnablePPENtrip` compares the new `requiresNmeaLocation` with itself.
- `update()` in update-sha1sums.py assigns `needSHA1`, which makes it local: an entry before any header raises
  an error instead of using the module-level default.

## Model

| member | source | states |
|---|---|---|
| `AgpsSpec.RunInvariant` | gps/gnss/Agps.cpp:73-283 | in every run handles stay distinct, only waiting subscribers are inactive and RELEASED means an empty list; that RELEASED holds exactly when the list is empty, PENDING and ACQUIRED have an active subscriber and RELEASING an inactive one holds throughout a run if and only if every modem restart in it finds the machine RELEASED |
| `AgpsSpec.RestartExact` | gps/gnss/Agps.cpp:495-506 | a restart, which empties the list and keeps the state, keeps that invariant if and only if the machine is RELEASED |
| `AgpsSpec.ReleasingNeverEmpties` | gps/gnss/Agps.cpp:146-163 | in every run whose restarts find the machine RELEASED no unsubscribe empties the list while releasing: that branch is dead |
| `AgpsSpec.RestartBreaksStrong` | gps/gnss/Agps.cpp:495-506 | a run in which a restart while releasing makes that branch live |
| `AgpsSpec.CallbackConservation` | gps/gnss/Agps.cpp:310-380 | in every run, per handle: accepted subscriptions = terminal callbacks + those forgotten by a restart + 1 if still listed |
| `AgpsSpec.OpenSuccessAtMostOnce` | gps/gnss/Agps.cpp:173-194 | in runs whose restarts find the machine RELEASED, each subscription hears at most one open success, and exactly one once active on an acquired connection, throughout the run if and only if no listed handle that has heard one asks again while acquired |
| `AgpsSpec.SuccessTwice` | gps/gnss/Agps.cpp:92-98 | a run in which one subscription hears two |
| `AgpsSpec.RepeatedRequestRepeatsSuccess` | gps/gnss/Agps.cpp:92-98 | a repeated request on an acquired connection says success a second time and lists nobody new |
| `AgpsSpec.FrameworkProtocol` | gps/gnss/Agps.cpp:73-283 | in every run, restarts included, two releases never occur without a request between, and the state tells which call came last |
| `AgpsSpec.NeverReleasing` | gps/gnss/Agps.cpp:109-170 | when nobody waits for the close, RELEASING is never reached and nobody is inactive |
| `AgpsEffects.StepTells` | gps/gnss/Agps.cpp:73-283 | what each message tells each handle, by the state and whether the handle is listed, active or waiting: a success on a grant or an acquired connection, a failure on a denied request, a close on a release or a withdrawal, with the link as it is; nothing else |
| `AgpsEffects.RunTells` | gps/gnss/Agps.cpp:310-380 | over every run each handle hears exactly that, in order |
| `AgpsEffects.ClosesAndFailures` | gps/gnss/Agps.cpp:345-380 | in every run the failures a handle hears are exactly the denials it waited for while listed, and the closes are its other accepted subscriptions that are neither forgotten by a restart nor still listed |
| `AgpsEffects.StepCalls` | gps/gnss/Agps.cpp:289-306 | which messages call the framework: a request for the first subscriber and for those active after a release, a release when the last active one goes, with the link's type and mask |
| `AgpsEffects.StepLeaves` | gps/gnss/Agps.cpp:73-171 | who is listed after each message, subscriber by subscriber; newcomers go to the end; only a new setting changes the link |
| `AgpsEffects.StepMoves` | gps/gnss/Agps.cpp:73-283 | the state after each message, by who stays and who is active |
| `AgpsManagerSpec.ManagerRefinesMachines` | gps/gnss/Agps.cpp:514-676 | every run of the manager drives each machine through a run of its own with subscribers that never wait, and through one whose restarts find it RELEASED when that holds of the manager's |
| `AgpsManagerSpec.ManagedMachine` | gps/gnss/Agps.cpp:563-597 | inside the manager no machine is ever RELEASING, all listed are active, framework calls alternate; when restarts find the machines RELEASED, RELEASED holds exactly when the list is empty |
| `AgpsManagerSpec.ReleaseAtlExact` | gps/gnss/Agps.cpp:599-625 | a release closes the handle once in the first machine that lists it, leaves the other machine alone, and the handle is still listed exactly when both machines listed it |
| `AgpsRouting.RequestReaches` | gps/gnss/Agps.cpp:537-597 | a request of type -1, 1 or 5 reaches the AGNSS machine and any other the internet one, and no other machine; an emergency request without an emergency PDN has type 1 and bit 4 of the mask in place of bit 9; without a machine the failure is told with what was asked |
| `AgpsRouting.ReportReaches` | gps/gnss/Agps.cpp:627-662 | a closed or failed connection is reported to the machine of its type only |
| `AgpsRouting.GrantReaches` | gps/gnss/Agps.cpp:627-643 | a grant sets the bearer and the APN of the machine of its type first; an APN that is missing, empty, over 100 long or not of the announced length counts as none |
| `AgpsRouting.MachinesMade` | gps/gnss/Agps.cpp:514-535 | each machine is made once, by the capability and the types configured, released and with its own type; a modem restart empties the lists and changes nothing else |
| `Agps.AgpsStateMachine.NotifyAllSubscribers` | gps/gnss/Agps.cpp:310-343 | the walk that erases under its iterator tells exactly the addressed subscribers in order and keeps exactly the others |
| `Agps.AgpsStateMachine.AddSubscriber` | gps/gnss/Agps.cpp:392-411 | a new handle goes to the end, a listed one changes nothing |
| `Agps.AgpsStateMachine.DeleteSubscriber` | gps/gnss/Agps.cpp:413-430 | every entry with the handle is erased, the others keep their order |
| `Agps.AgpsStateMachine.ProcessSubscribe` | gps/gnss/Agps.cpp:73-107 | the whole new machine after a subscription, in each state |
| `Agps.AgpsStateMachine.ProcessUnsubscribe` | gps/gnss/Agps.cpp:109-171 | the whole new machine after an unsubscription, in each state |
| `Agps.AgpsStateMachine.ProcessGranted` | gps/gnss/Agps.cpp:173-194 | granted moves PENDING to ACQUIRED and tells the active subscribers; elsewhere nothing |
| `Agps.AgpsStateMachine.ProcessReleased` | gps/gnss/Agps.cpp:196-241 | the whole new machine after a release by the modem |
| `Agps.AgpsStateMachine.ProcessDenied` | gps/gnss/Agps.cpp:243-283 | the whole new machine after a denial |
| `Agps.AgpsManager.RequestAtl` | gps/gnss/Agps.cpp:563-597 | which machine a request reaches, with the emergency downgrade |
| `Agps.AgpsManager.ReleaseAtl` | gps/gnss/Agps.cpp:599-625 | which machine and subscriber a release reaches |
| `Agps.AgpsManager.HandleModemSsr` | gps/gnss/Agps.cpp:664-676 | both lists are dropped, states stay |
| `BatchingSpec.NoEarlyCompletion` | gps/batching/BatchingAdapter.cpp:662-694 | over every faithful run below 2^32 m no trip is credited more than it really travelled, nothing underflows, and no trip was declared complete early |
| `BatchingSpec.FaithfulRunsExact` | gps/batching/BatchingAdapter.cpp:642-1023 | that accounting holds throughout a run if and only if every step is faithful: joins whose restart is not asked for, is accepted, or credits no trip more than it had and had lost; reports no older than the trips they do not rightly complete; engine restarts without late joiners |
| `BatchingSpec.StepExact` | gps/batching/BatchingAdapter.cpp:642-1023 | the same for one step from any accounted state, option updates included |
| `BatchingSpec.JoinExact` | gps/batching/BatchingAdapter.cpp:781-851 | a join keeps the accounting if and only if it asks for no restart, the modem accepts it, or each trip's last total and joining point are covered by its total at the last restart and its loss; while nothing is lost, by the total at the last restart alone |
| `BatchingSpec.RecordsDoNotDecide` | gps/batching/BatchingAdapter.cpp:809-851 | two faithful runs with equal records and counter, of which one refused join breaks only the first |
| `BatchingSpec.OnReportExact` | gps/batching/BatchingAdapter.cpp:642-702 | a report keeps it if and only if its value is not older than any trip, or that trip has covered its distance anyway |
| `BatchingSpec.CompletionExact` | gps/batching/BatchingAdapter.cpp:666-670 | a report of the present counter completes a trip if and only if its credit, the distance travelled less the loss, covers its distance |
| `BatchingSpec.RestartConservesCredit` | gps/batching/BatchingAdapter.cpp:919-1023 | a restart of the batch conserves every trip's credit exactly |
| `BatchingSpec.JoinLossExact` | gps/batching/BatchingAdapter.cpp:781-851 | a join loses nothing if and only if it asks for no restart, the modem refuses it, or every total is up to date with the counter |
| `BatchingSpec.StepLossExact` | gps/batching/BatchingAdapter.cpp:642-1023 | the same for every faithful step: updates, reports that restart the batch, engine restarts |
| `BatchingSpec.RunLosesNothing` | gps/batching/BatchingAdapter.cpp:642-1023 | a faithful run never loses a distance if and only if every step is lossless |
| `BatchingSpec.LosslessRunsAreExact` | gps/batching/BatchingAdapter.cpp:662-694 | in those runs the credit of every trip is exactly the distance travelled, and it completes exactly when that covers its distance |
| `BatchingSpec.RecordedStepExact` | gps/batching/BatchingAdapter.cpp:642-1023 | from a state in which every trip is credited with exactly what it travelled, a step keeps that if and only if the records, the counter and the modem's answers meet a stated condition |
| `BatchingSpec.RecordedRunsExact` | gps/batching/BatchingAdapter.cpp:642-1023 | every trip is credited exactly throughout a run if and only if every step meets that condition |
| `BatchingSpec.StartSavesExact` | gps/batching/BatchingAdapter.cpp:744-851 | a started trip is saved as a session if and only if it is the first and accepted, or was saved before |
| `BatchingSpec.LateJoinerCannotStop` | gps/batching/BatchingAdapter.cpp:781-851 | a run in which a second trip goes on although its client stops it, whatever the modem answers |
| `BatchingSpec.JoiningLosesDistance` | gps/batching/BatchingAdapter.cpp:833-838 | the start path restarts from stale totals: there is a faithful run in which a trip loses distance |
| `BatchingSpec.RefusedRestartCompletesEarly` | gps/batching/BatchingAdapter.cpp:809-851 | a faithful run, then a join whose restart the modem refuses: the next report completes the newcomer without travel |
| `BatchingSpec.StaleValueExact` | gps/batching/BatchingAdapter.cpp:664-670 | the 32-bit total is at most the distance travelled if and only if the value is not older than the trip; an older one wraps |
| `BatchingSpec.StaleReportCompletesEarly` | gps/batching/BatchingAdapter.cpp:664-670 | a faithful run, then a report of an earlier value: a trip completes without travel |
| `BatchingSpec.EngineUpExact` | gps/batching/BatchingAdapter.cpp:187-240 | the engine restart, whose loop resets copies, keeps the accounting if and only if no trip joined its batch late |
| `BatchingSpec.EngineUpCompletesEarly` | gps/batching/BatchingAdapter.cpp:187-240 | a faithful run, then an engine restart and a report: a late joiner completes without travel |
| `BatchingSpec.BatchFullRegistered` | gps/batching/BatchingAdapter.cpp:142-157 | the batch-full bit is set whenever an auto-report or trip session exists, throughout a run if and only if every failed stop in it leaves the bit set or nobody who wants it |
| `BatchingSpec.FailedUpdateExact` | gps/batching/BatchingAdapter.cpp:493-529 | after a failed stop inside an option update the registration holds if and only if the bit was still set or the new options want no reports |
| `BatchingSpec.FailedStopUnregistered` | gps/batching/BatchingAdapter.cpp:493-529 | a run in which a session without reports comes back with them, unregistered |
| `BatchingSpec.FailedStopExact` | gps/batching/BatchingAdapter.cpp:493-529 | after a failed plain stop the registration holds if and only if the bit was still set |
| `BatchingSpec.WalkNext` | gps/batching/BatchingAdapter.cpp:662-685 | one turn of the walk that erases completed trips keeps the walk's account |
| `BatchingEffects.RestartAsks` | gps/batching/BatchingAdapter.cpp:919-1023 | the batch is restarted exactly when some trip has less to go or wants fixes more often than the batch, or the batch is at its end or belonged to a trip that is gone; it then asks the modem for the least distance any trip has left and the least interval any trip wants, of the trips after the last with none, since zero means "none yet" to the searches |
| `BatchingEffects.EngineUpAsks` | gps/batching/BatchingAdapter.cpp:187-240 | an engine restart asks for the least of all trips, and records nothing when refused |
| `BatchingEffects.JoinAsks` | gps/batching/BatchingAdapter.cpp:781-851 | a joining trip asks for the smaller of its distance and what the batch has left and for the smaller interval, or for nothing when the batch has both |
| `BatchingEffects.ReportTells` | gps/batching/BatchingAdapter.cpp:642-702 | a distance report takes exactly the trips whose 32-bit total covers their distance, tells exactly those complete, each once, and leaves the others their plans |
| `BatchingEffects.StepPlans` | gps/batching/BatchingAdapter.cpp:744-916 | every other message leaves exactly the trips it should, with their distance, interval and start |
| `BatchingEffects.RunOrdered` | gps/batching/BatchingAdapter.cpp:642-1023 | over every run the trips are listed once each, in the order of their ids |
| `BatchingEffects.StepSessions` | gps/batching/BatchingAdapter.cpp:367-530 | every message leaves exactly the sessions it should: a joining trip is not saved, a stopped one stays, a failed stop saves the options of the call |
| `BatchingEffects.StepBit` | gps/batching/BatchingAdapter.cpp:142-157 | while the registration holds, the batch-full bit is only set for somebody and only cleared when nobody is left |
| `BatchingEffects.ReportFlags` | gps/batching/BatchingAdapter.cpp:672-683 | a report sets a flag exactly when a completed trip had the batch's interval or distance, and clears none |
| `BatchingEffects.StopFlags` | gps/batching/BatchingAdapter.cpp:881-895 | a stopped trip does the same |
| `Batching.BatchingAdapter.StartTripBatchingMultiplex` | gps/batching/BatchingAdapter.cpp:744-852 | the whole new adapter after a trip starts, first or joining |
| `Batching.BatchingAdapter.StopTripBatchingMultiplex` | gps/batching/BatchingAdapter.cpp:855-916 | the whole new adapter after a trip stops |
| `Batching.BatchingAdapter.RestartTripBatching` | gps/batching/BatchingAdapter.cpp:919-1023 | credits every trip, recomputes least remaining distance and interval, restarts only when needed |
| `Batching.BatchingAdapter.TakeCompletedTrips` | gps/batching/BatchingAdapter.cpp:658-685 | the in-place erasure takes exactly the trips that complete |
| `Batching.BatchingAdapter.ReportCompletedTrips` | gps/batching/BatchingAdapter.cpp:642-702 | the whole new adapter after a distance report |
| `Batching.BatchingAdapter.StartBatching` | gps/batching/BatchingAdapter.cpp:367-398 | the whole new adapter after a plain batching start, failed or not |
| `Batching.BatchingAdapter.StopBatching` | gps/batching/BatchingAdapter.cpp:493-529 | the whole new adapter after a plain batching stop, failed or not |
| `Batching.BatchingAdapter.UpdateBatchingOptions` | gps/batching/BatchingAdapter.cpp:401-449 | the whole new adapter after an option update, by session kind |
| `Batching.BatchingAdapter.AutoReportBatchingSessionsCount` | gps/batching/BatchingAdapter.cpp:295-305 | counts sessions other than the no-auto-report mode, and trips |
| `Batching.BatchingAdapter.UpdateClientsEventMask` | gps/batching/BatchingAdapter.cpp:143-157 | sets the bit exactly by the session count |
| `TrackingSpec.ModemFastEnough` | gps/gnss/GnssAdapter.cpp:2927-3047 | in every run, while sessions exist and are not suspended the modem runs at an interval at most every session's; the "already at highest" flag implies NHz is needed and 100 ms |
| `TrackingSpec.MinimalRunsExact` | gps/gnss/GnssAdapter.cpp:2927-3348 | with new session keys and NHz off, the modem's interval is the minimum of the sessions' throughout a run if and only if every update of a running modem sends, keeps its interval, or leaves another session that wants the old one or faster |
| `TrackingSpec.UpdateExact` | gps/gnss/GnssAdapter.cpp:3169-3231 | the same for one update, the modem stopped or running |
| `TrackingSpec.UpdateCanWaste` | gps/gnss/GnssAdapter.cpp:3169-3231 | a run in which an update leaves the modem faster than any session wants |
| `TrackingSpec.SmallestIsLeast` | gps/gnss/GnssAdapter.cpp:2939-2957 | the search loop finds an attained lower bound |
| `TrackingEffects.SessionsAsAsked` | gps/gnss/GnssAdapter.cpp:2750-2786 | over every run the session map holds exactly the last options asked for under each running key, no faster than 100 ms; a stop removes its own key only |
| `TrackingEffects.FlagsAsAsked` | gps/gnss/GnssAdapter.cpp:2612-2644 | over every run the NHz flag and the suspension are what the messages say |
| `TrackingEffects.ModemStops` | gps/gnss/GnssAdapter.cpp:3286-3332 | the modem stops on a suspension of sessions and on the last session's end |
| `TrackingEffects.SendExact` | gps/gnss/GnssAdapter.cpp:205-227 | what the modem runs after it is asked: the options, or 100 ms once while NHz output is needed |
| `TrackingEffects.StartAsks` | gps/gnss/GnssAdapter.cpp:2927-2981 | a start beside others asks the modem exactly when it wants less of the interval or power than all of them, and for the smaller of each; every power mode counts, the invalid one as the search treats it |
| `TrackingEffects.UpdateAsks` | gps/gnss/GnssAdapter.cpp:3169-3231 | a changing update asks the same against the other sessions, or for itself when alone |
| `TrackingEffects.StopAsks` | gps/gnss/GnssAdapter.cpp:3286-3332 | a stop beside others asks exactly when the session wanted less than all others, for the least of theirs |
| `TrackingEffects.RestartAsks` | gps/gnss/GnssAdapter.cpp:2612-2644 | a resumption, an engine restart and a change of NHz output ask for the least of all; with no power mode when the first session has none |
| `Tracking.TrackingAdapter.FindSmallest` | gps/gnss/GnssAdapter.cpp:2939-2957 | the loops over the session map compute the specification's minima |
| `Tracking.TrackingAdapter.StartTracking` | gps/gnss/GnssAdapter.cpp:2927-3015 | the whole new adapter after a start |
| `Tracking.TrackingAdapter.UpdateTracking` | gps/gnss/GnssAdapter.cpp:3169-3231 | the whole new adapter after an update |
| `Tracking.TrackingAdapter.StopTracking` | gps/gnss/GnssAdapter.cpp:3286-3348 | the whole new adapter after a stop |
| `Tracking.TrackingAdapter.RestartSessions` | gps/gnss/GnssAdapter.cpp:2612-2644 | the whole new adapter after a suspend/restart pair's restart |
| `Tracking.TrackingAdapter.CheckHighestRate` | gps/gnss/GnssAdapter.cpp:205-227 | the NHz adjustment and its flag |
| `Blacklist.MaskRoundTrip` | gps/gnss/GnssAdapter.cpp:1809-1855 | for every six masks, list-from-mask then mask-from-list gives the same masks, all-ones shortcut and split SBAS ranges included |
| `Blacklist.IdRoundTrip` | gps/gnss/GnssAdapter.cpp:1706-1807 | valid non-zero ids come back as the same set if and only if no whole non-SBAS constellation was listed |
| `Blacklist.WholeConstellationChanges` | gps/gnss/GnssAdapter.cpp:1866-1870 | the 64 ids of any such constellation do not |
| `Blacklist.AllBitsValue` | gps/location/LocationDataTypes.h:1369-1369 | the full mask of the model, 2^64 - 1, is the constant the shortcut compares with |
| `Blacklist.IdSetsBit` | gps/location/LocationDataTypes.h:1373-1397 | an id sets exactly the bit it has from its constellation's first id: 65, 201, 193, 301, 401, and for SBAS 120 to 158 and then 183 |
| `Blacklist.FromConfigInOrder` | gps/gnss/GnssAdapter.cpp:1809-1855 | the ids of a configuration are those of its masks, in the order of the segments |
| `Blacklist.ConvertToGnssSvIdConfig` | gps/gnss/GnssAdapter.cpp:1706-1807 | the loop ORs exactly the listed bits, an empty list clears the configuration, and the call fails exactly when a non-empty list leaves every mask zero |
| `Blacklist.ConvertGnssSvIdMaskToList` | gps/gnss/GnssAdapter.cpp:1857-1895 | the shifting loop appends one id per set bit in order, or the zero id for a full mask |
| `Blacklist.ConvertFromGnssSvIdConfig` | gps/gnss/GnssAdapter.cpp:1809-1855 | the six segments in the source's order |
| `GpsLockSpec.PushedIsTarget` | gps/gnss/GnssAdapter.cpp:890-894 | after the first configuration the lock in the modem always equals what a full reconfiguration would push |
| `GpsLockSpec.ModemFollowsControl` | gps/gnss/GnssAdapter.cpp:3477-3550 | in every run the modem unlocks mobile-originated positioning exactly while location is enabled, in both behaviours and across the switch |
| `GpsLockSpec.SwitchIsPermanent` | gps/gnss/GnssAdapter.cpp:1287-1317 | after a lock configuration the behaviour stays 'P' and the stored lock keeps its MO bit |
| `GpsLockSpec.LateNfwControl` | gps/gnss/GnssAdapter.cpp:5595-5612 | a control message queued before the switch leaves the modem right if and only if location is disabled |
| `GpsLockSpec.LateNfwControlRun` | gps/gnss/GnssAdapter.cpp:5595-5612 | a run, from any disabled start, after which such a message leaves the modem wrong |
| `GpsLock.LockAdapter.UpdateConfig` | gps/gnss/GnssAdapter.cpp:1287-1317 | the lock pushed and the lasting switch: pushed locked when disabled, unlocked on the first switch while enabled, not at all later |
| `GpsLock.LockAdapter.EnableCommand` | gps/gnss/GnssAdapter.cpp:3477-3499 | takes the step of `PushedIsTarget`; refused for another technology or while enabled |
| `GpsLock.LockAdapter.DisableCommand` | gps/gnss/GnssAdapter.cpp:3530-3550 | takes the step of `PushedIsTarget`; refused for any session but the enabling one |
| `GpsLock.LockAdapter.NfwControlCommand` | gps/gnss/GnssAdapter.cpp:5595-5612 | takes the step of `PushedIsTarget`; ignored in `P` behaviour |
| `NtripSpec.RunGood` | gps/gnss/GnssAdapter.cpp:6599-6625 | in every run a started source is enabled, not waiting for a position, serves a time-based session and has a non-empty saved text built from the current parameters; the saved text is always the source the daemon was last told to run, and so was everything repeated to a restarted daemon |
| `NtripSpec.PromptExact` | gps/gnss/GnssAdapter.cpp:2765-2786 | a step keeps "started exactly when enabled, not waiting and in session" if and only if it does not erase one of several sessions of a source that needs no position |
| `NtripSpec.RunPrompt` | gps/gnss/GnssAdapter.cpp:2750-2786 | it holds throughout exactly the runs without such erases |
| `NtripSpec.EraseStarves` | gps/gnss/GnssAdapter.cpp:2765-2786 | a run in which erasing one of two sessions stops the source of the other |
| `NtripSpec.SaveRepairs` | gps/gnss/GnssAdapter.cpp:2750-2763 | the next saved session restores it from any sound state |
| `NtripSpec.EnableOrphans` | gps/gnss/GnssAdapter.cpp:6541-6576 | a run in which the daemon keeps a source that is no longer started |
| `NtripSpec.OrphanExact` | gps/gnss/GnssAdapter.cpp:6541-6576 | the daemon's source and the flag part if and only if a new source that must wait for a position replaces a started one |
| `NtripSpec.RunFollows` | gps/gnss/GnssAdapter.cpp:6541-6625 | they agree throughout exactly the runs without such replacements |
| `NtripSpec.PushesTenMinutesApart` | gps/gnss/GnssAdapter.cpp:6599-6615 | with a clock that never goes back, two positions pushed in one started session, or a start that needed one and a push, are more than ten minutes apart |
| `NtripEffects.SettingsAsAsked` | gps/gnss/GnssAdapter.cpp:6541-6625 | over every run the consent, the sessions, the source, the need and the arrival of a position and the position itself are what the messages say |
| `NtripEffects.StepSays` | gps/gnss/GnssAdapter.cpp:6541-6625 | which messages start, stop, feed and repeat the source, and with which text and position |
| `NtripEffects.StepStarts` | gps/gnss/GnssAdapter.cpp:6541-6615 | when a source counts as started |
| `NtripEffects.StepTimes` | gps/gnss/GnssAdapter.cpp:6599-6615 | when the time of the last position is taken |
| `NtripEffects.TextIsLines` | gps/gnss/XtraSystemStatusObserver.cpp:240-260 | the start text is the command, the encryption, host, port, mount point, user and password, one line each, and the position when needed and known |
| `NtripEffects.TextReadsBack` | gps/gnss/XtraSystemStatusObserver.cpp:240-260 | when no part has a line end, the text splits into exactly those lines and the port reads as its number |
| `Ntrip.XtraObserver.StartDgnssSource` | gps/gnss/XtraSystemStatusObserver.cpp:240-260 | the text kept for a daemon restart is the text sent, position included only when needed and known |
| `Ntrip.XtraObserver.RestartDgnssSource` | gps/gnss/XtraSystemStatusObserver.cpp:262-268 | a restarted daemon is sent the saved text, nothing when there is none; by `RunGood` that is the source it was last told to run |
| `Ntrip.NtripAdapter.HandleStatusRequest` | gps/gnss/XtraSystemStatusObserver.cpp:93-97 | the daemon's status request is the restart step of the runs |
| `Ntrip.NtripAdapter.CheckUpdateDgnssNtrip` | gps/gnss/GnssAdapter.cpp:6599-6615 | start, push or nothing, with the 64-bit time difference |
| `Ntrip.NtripAdapter.HandleEnablePPENtrip` | gps/gnss/GnssAdapter.cpp:6541-6576 | takes the step of `RunGood` and `OrphanExact`: repeated connections are ignored, a source needing a position waits, another starts at once in session |
| `Ntrip.NtripAdapter.HandleDisablePPENtrip` | gps/gnss/GnssAdapter.cpp:6592-6597 | forgets the source and stops it if it was started |
| `Ntrip.NtripAdapter.EraseTrackingSession` | gps/gnss/GnssAdapter.cpp:2765-2786 | takes the step of `PromptExact`: any erase stops a started source |
| `NetworkTable.TableRefinesMap` | gps/core/SystemStatus.h:513-576 | each report changes the dense, duplicate-free table as it changes a capacity-bounded map from handle to type |
| `NetworkTable.FoldRefinesMap` | gps/core/SystemStatus.h:513-576 | hence any sequence of reports does |
| `NetworkTable.FirstReportExact` | gps/core/SystemStatus.cpp:1354-1372 | a first report's table is right if and only if its network is up or its handle unknown |
| `NetworkTable.FirstReportOfLoss` | gps/core/SystemStatus.cpp:1354-1372 | a first report that a network went down lists it |
| `NetworkTable.NetworkInfo.Insert` | gps/core/SystemStatus.h:521-531 | the loop leaves a listed handle alone, fills the first free slot, and drops the handle when the table is full |
| `NetworkTable.NetworkInfo.FindSlot` | gps/core/SystemStatus.h:533-549 | the counting loop: which slot goes, how many are used, how many of the type stay |
| `NetworkTable.NetworkInfo.Collate` | gps/core/SystemStatus.h:513-576 | the array takes the step `TableRefinesMap` is about, by insertion or swap-delete in place |
| `History.HistoryIsLastFiveMerged` | gps/core/SystemStatus.cpp:1354-1381 | a history fed with reports and defaults in any order is exactly the last five items, ignored reports left out, each report merged into an equal predecessor, defaults always pushed |
| `History.MergedDiffer` | gps/core/SystemStatus.cpp:1360-1378 | neighbours in a merged history differ unless the later one was pushed as a default, and the first value is kept |
| `History.NewestTableIsFold` | gps/core/SystemStatus.cpp:1354-1372 | the newest entry's table is the fold of all reports although unchanged ones are not pushed, and lists exactly the networks left connected |
| `History.NetworksAreLastFive` | gps/core/SystemStatus.cpp:1354-1372 | over every run of reports the network history is the last five of the collated tables that differ from the one before |
| `History.ReportHistory.SetItemInReport` | gps/core/SystemStatus.cpp:1354-1372 | pushes, merges with the newest, or ignores the report, and says whether the vector changed, as `HistoryIsLastFiveMerged` needs |
| `History.ReportHistory.SetDefaultItemInReport` | gps/core/SystemStatus.cpp:1374-1381 | a default is always pushed and the oldest entry goes beyond five |
| `History.ReportHistory.GetItemInReport` | gps/core/SystemStatus.cpp:1383-1391 | the newest entry alone |
| `History.NetworkHistory.SetItemInReport` | gps/core/SystemStatus.cpp:1354-1372 | the report is collated with the newest table before it is compared, and pushed only when table or connection differ |
| `Splitting.PiecesExact` | gps/core/SystemStatus.cpp:73-83 | the tokens are the only comma-free fields that make up the text to its last comma |
| `NmeaFields.FieldsComeBack` | gps/core/SystemStatus.cpp:56-84 | fields free of ',' and '*' come back from their sentence with any comma-free checksum, if and only if the length is in range |
| `NmeaFields.FieldsExact` | gps/core/SystemStatus.cpp:56-84 | there are fields exactly for the debug prefix, 6 to 4096 characters and a star |
| `NmeaFields.SystemStatusNmeaBase.constructor` | gps/core/SystemStatus.cpp:56-84 | no tokens without the debug prefix, a length in range and a star; otherwise the tokens with the first star read as a comma |
| `NmeaFields.SystemStatusNmeaBase.Tokenize` | gps/core/SystemStatus.cpp:73-83 | the loop ends and cuts exactly the comma-ended parts |
| `SetMapClass.LocUnorderedSetMap.Add` | gps/utils/LocUnorderedSetMap.h:152-181 | values are added under every key; the keys that were new are given back |
| `SetMapClass.LocUnorderedSetMap.TrimOrRemove` | gps/utils/LocUnorderedSetMap.h:135-148 | values are taken out under every key; emptied keys vanish and are given back |
| `SetMapClass.LocUnorderedSetMap.Update` | gps/utils/LocUnorderedSetMap.h:183-196 | the key holds the new values; what is returned and what is left in the argument |
| `SetMapSpec.GivenBack` | gps/utils/LocUnorderedSetMap.h:135-181 | the keys and values given back are those that really appeared or vanished |
| `OsObserverSpec.ItemsAsWanted` | gps/core/SystemStatusOsObserver.cpp:94-284 | in every run each client holds exactly what its messages asked for: subscribes add, updates replace, unsubscribes remove |
| `OsObserverSpec.UpdateExact` | gps/core/SystemStatusOsObserver.cpp:142-200 | an update keeps the two maps transposed if and only if the client had no items |
| `OsObserverSpec.MapsStayTransposed` | gps/core/SystemStatusOsObserver.cpp:94-284 | no run leaves an empty set in the maps, and they are transposes throughout exactly the runs whose updates with items are first subscriptions |
| `OsObserverSpec.FrameworkFollowsClients` | gps/core/SystemStatusOsObserver.cpp:62-284 | in every run the framework is subscribed only to items with clients; to all of them once connected and without blind requests |
| `OsObserverSpec.NotifyExact` | gps/core/SystemStatusOsObserver.cpp:299-344 | with transposed maps exactly the clients of some updated item are told, each exactly its updated items |
| `OsObserverSpec.NewsReachesWho` | gps/core/SystemStatusOsObserver.cpp:299-344 | hence after every run of first updates exactly the clients that asked for some updated item are told, each exactly those |
| `OsObserverSpec.UpdateMissesNews` | gps/core/SystemStatusOsObserver.cpp:155-200 | a run in which an update makes a client miss news it asked for |
| `OsObserver.SystemStatusOsObserver.Subscribe` | gps/core/SystemStatusOsObserver.cpp:94-140 | both maps and the framework's set take the step that `ItemsAsWanted`, `MapsStayTransposed` and `FrameworkFollowsClients` are about; blind requests subscribe nothing with the framework |
| `OsObserver.SystemStatusOsObserver.UpdateSubscription` | gps/core/SystemStatusOsObserver.cpp:142-212 | the same for an update: the trim uses the values that stay, in the order trim then add |
| `OsObserver.SystemStatusOsObserver.Unsubscribe` | gps/core/SystemStatusOsObserver.cpp:214-253 | the same for an unsubscription: only items the client really had are trimmed |
| `OsObserver.SystemStatusOsObserver.UnsubscribeAll` | gps/core/SystemStatusOsObserver.cpp:255-294 | the same for a client that leaves; nothing happens when it has no items |
| `OsObserver.SystemStatusOsObserver.Notify` | gps/core/SystemStatusOsObserver.cpp:299-344 | the cache afterwards, and exactly the messages of `NotifyExact`, although clients are gathered by item and items by client in separate loops |
| `OsObserver.SystemStatusOsObserver.UpdateCache` | gps/core/SystemStatusOsObserver.cpp:558-589 | an item refreshes the cache exactly when system status accepts it and its value is new |
| `GeofenceSpec.KeysLeadHome` | gps/geofence/GeofenceAdapter.cpp:46-74 | with hardware ids never reused, in every run of adds, removals, client stops with late answers and engine restarts each key leads to the geofence carrying that key |
| `GeofenceSpec.PairedIsInjective` | gps/geofence/GeofenceAdapter.cpp:641-657 | hence no two keys share a hardware id |
| `GeofenceSpec.AddExact` | gps/geofence/GeofenceAdapter.cpp:641-657 | an add keeps the indexes paired if and only if the hardware id is free |
| `GeofenceSpec.AddThenAnswerExact` | gps/geofence/GeofenceAdapter.cpp:46-74 | keys lead home right after an add if and only if no other key holds the id, and still after a late successful answer for it if and only if no leaving client waits on it: together, the id is free |
| `GeofenceSpec.PairedRunsExact` | gps/geofence/GeofenceAdapter.cpp:46-74 | the indexes stay paired throughout exactly the runs that add under free ids |
| `GeofenceSpec.ReuseLeavesDanglingKey` | gps/geofence/GeofenceAdapter.cpp:46-74 | a late answer for a reused id leaves a key that leads nowhere |
| `GeofenceSpec.BreachReachesOwners` | gps/geofence/GeofenceAdapter.cpp:783-814 | a report of any listed geofences tells each client exactly the ids of its own keys, in the order reported |
| `GeofenceSpec.BreachConserves` | gps/geofence/GeofenceAdapter.cpp:783-814 | the reported ids told to all clients add up to the known ones in the report |
| `GeofenceSpec.BreachTells` | gps/geofence/GeofenceAdapter.cpp:783-814 | exactly the listening clients with an id in the report are told, each all its ids in the order reported |
| `GeofenceEffects.StepHolds` | gps/geofence/GeofenceAdapter.cpp:641-722 | a message leaves the indexes holding exactly the geofences, options and pauses the messages say if and only if it does not remove a geofence whose key leads to a newer one |
| `GeofenceEffects.RunHolds` | gps/geofence/GeofenceAdapter.cpp:641-722 | with ids given out while free, they hold that throughout exactly the runs without such removals |
| `GeofenceEffects.StrayRemoved` | gps/geofence/GeofenceAdapter.cpp:660-682 | a run in which removing an old geofence takes the key of the new one |
| `GeofenceEffects.RunTidy` | gps/geofence/GeofenceAdapter.cpp:46-74 | runs without such removals, without adding a key again under another id and without failed removals leave no geofence without its key |
| `GeofenceEffects.StopsExact` | gps/geofence/GeofenceAdapter.cpp:46-74 | a leaving client's geofences, and only those, wait for an answer |
| `GeofenceAdapterModel.GeofenceAdapter.SaveGeofenceItem` | gps/geofence/GeofenceAdapter.cpp:641-657 | both indexes take the step `AddExact` and `KeysLeadHome` are about, overwriting what the id or key led to |
| `GeofenceAdapterModel.GeofenceAdapter.RemoveGeofenceItem` | gps/geofence/GeofenceAdapter.cpp:660-682 | the geofence goes, and the key it carries with it; an unknown id changes nothing |
| `GeofenceAdapterModel.GeofenceAdapter.StopClientSessions` | gps/geofence/GeofenceAdapter.cpp:46-74 | the keys of the client go at once, its geofences with the late answers |
| `GeofenceAdapterModel.GeofenceAdapter.RestartGeofences` | gps/geofence/GeofenceAdapter.cpp:137-172 | both indexes are emptied and every geofence is given back to be added again |
| `GeofenceAdapterModel.GeofenceAdapter.GeofenceBreach` | gps/geofence/GeofenceAdapter.cpp:783-814 | each listening client is told its own ids in the order reported, nobody an empty list |
| `AdapterArray.AddedDistinct` | gps/core/LocApiBase.cpp:230-239 | adding keeps the adapters distinct and adds exactly the given one while there is room |
| `AdapterArray.RemovedExactly` | gps/core/LocApiBase.cpp:241-275 | removing takes out exactly the given adapter and keeps the others, each once |
| `AdapterArray.LocApiBase.AddAdapter` | gps/core/LocApiBase.cpp:230-239 | the array stays a dense prefix; the open message is sent exactly when the adapter was added |
| `AdapterArray.LocApiBase.RemoveAdapter` | gps/core/LocApiBase.cpp:241-275 | the loop that moves its own index ends, removes exactly the adapter, and sends close exactly when the array became empty |
| `AdapterArray.LocApiBase.GetEvtMask` | gps/core/LocApiBase.cpp:167-174 | exactly the events some adapter wants and the interface does not exclude |
| `Sorting.SortSorts` | update-sha1sums.py:44-44 | the sort orders by key and keeps the multiset |
| `Sorting.SortStable` | update-sha1sums.py:72-72 | elements with equal keys keep their order |
| `Sha1SumsSpec.PrintReads` | update-sha1sums.py:40-68 | reading printed sections gives the sections back |
| `Sha1SumsSpec.SortingTwice` | update-sha1sums.py:49-74 | sorting sorted lines changes nothing |
| `Sha1SumsSpec.SortFileTwice` | update-sha1sums.py:26-74 | running the sort on the file it wrote writes the same file, line ends included |
| `Sha1SumsSpec.SortingKeepsEntries` | update-sha1sums.py:49-74 | exactly the multiset of entries under kept headers stays, each under its own header |
| `Sha1SumsSpec.UpdateSucceeds` | update-sha1sums.py:88-111 | hashing succeeds if and only if every entry follows a header and each file to hash has a name and can be opened |
| `Sha1SumsSpec.CleanUndoesUpdate` | update-sha1sums.py:77-111 | cleaning the file hashing wrote gives exactly what cleaning the original gives; hashing it again writes the same file |
| `Sha1SumsSpec.CleanFileTwice` | update-sha1sums.py:77-85 | cleaning twice is cleaning once |
| `Sha1SumsSpec.SplitJoined` | update-sha1sums.py:26-27 | splitting the written file gives the lines back, less one blank line at the end |
| `Sha1SumsEffects.PathOfEntry` | update-sha1sums.py:103-105 | an entry names the file behind its last colon, or all of it when it has none, up to the flags and the hash, without a leading dash |
| `Sha1SumsEffects.UpdateExact` | update-sha1sums.py:88-111 | a successful update leaves headers and blank lines and gives a hash to exactly the entries whose header says so |
| `Sha1SumsEffects.CleanExact` | update-sha1sums.py:77-85 | cleaning cuts the hash off an entry and leaves the rest |
| `Sha1SumsEffects.SortedOrder` | update-sha1sums.py:44-74 | sections come by lower-case name, entries by line but for a leading dash |
| `Sha1SumsEffects.LexExact` | update-sha1sums.py:44-44 | that order is decided by the first difference, a beginning before its continuation |
| `Sha1SumsEffects.IgnoredExact` | update-sha1sums.py:60-63 | a header is dropped exactly when it holds the text to ignore, and none is when that text is empty |
| `Sha1Sums.Script.Apply` | update-sha1sums.py:40-46 | an empty section adds nothing; another its name, its sorted entries and a blank line |
| `Sha1Sums.Script.ReadSections` | update-sha1sums.py:49-68 | the loop with its three variables finds the sections that `PrintReads` and `SortingKeepsEntries` are about |
| `Sha1Sums.Script.SortFile` | update-sha1sums.py:49-74 | the list, cleared and refilled in place, ends as the idempotent sorted form |
| `Sha1Sums.Script.Cleanup` | update-sha1sums.py:77-85 | the list edited in place: each entry cut at its bar, comments untouched, one blank line added |
| `Sha1Sums.Script.Update` | update-sha1sums.py:88-111 | the list edited in place ends as the form `CleanUndoesUpdate` is about, or the first error is raised and is the one `UpdateSucceeds` rules out |

## Left out

- Message queues, threads, mutexes and timers: each message is one atomic step; the modem's answer to a command
  arrives with the command, except where a late answer is modelled (geofence client stops).
- `dlopen`, configuration files, IPC transport and logging: what is sent is recorded, not transported.
- NI response threads (gps/gnss/GnssAdapter.cpp:4394-4540): fields are written outside the lock, so claims about
  them need assumptions on scheduling.
- Floating-point conversions, VRP translation and NMEA generation.
- Aliasing of the machine's current-subscriber pointer: subscribers are records found by handle.
- The power mode sent with a trip batch. The flags for a batch whose trip is gone, which the code never resets, and
  the type bits of the network report have no claim beyond the exact step (`BatchingEffects.ReportFlags`,
  `StopFlags`, `NetworkTable.AllTypesExact`): the obvious ones do not hold.
- Distance-based tracking sessions, and tracking commands the modem refuses.
- Stopping a trip that does not exist: the code looks the session up without a check, so callers name a live one.
- SBAS ids above 207 in the mask conversion: the code shifts a 64-bit value by more than 63 bits.
- Erasing an element while a loop stands on it (`removeAndReturnInterset`, client stops) and reading an element just
  erased (`LocUnorderedSetMap::trimOrRemove`, a completed trip): the loop is modelled as finishing its walk, and the
  element as still having its values.
- Cached data items sent at once on a subscription: only `notify` sends are modelled.
- Lock values outside the four the interface declares.
- Finding the GGA sentence inside a multi-sentence NMEA string (gps/gnss/GnssAdapter.cpp:6644-6663): a report carries
  the sentence that was found.
- Reading past the end of a debug NMEA string shorter than its stated length: the prefix check reads the text only.
- Unicode case folding of section names: any function from names to names, a parameter of the sort.
- The digest of a file: a parameter, which may say that the file cannot be opened.
- `LocHeap` and the remaining utilities, light, fingerprint, USB and Bluetooth HALs, and the null-checked forwarding
  in the interface files.
- BatchingSpec.FaithfulRunsExact: runs of 2^32 metres or more, where the counter itself wraps, and reports of more
  than the running counter, which a message queued across a restart could carry, are not modelled.
- TrackingSpec.MinimalRunsExact: claimed for runs whose starts use new session keys, as the interface hands them out.

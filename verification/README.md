# z-fleet: verified models of the agent/server core

z-fleet manages a fleet of agents from one server. This project models its four
linked cores in Dafny and proves what holds in every run, for every input:

* **Task and upgrade protocol.** The server's tables are maps, every write lambda
  of the database is one atomic step, and the single write actor runs them one
  after the other (`WriteActor`, `ServerStore`). Control workers read a task row
  in one step and write in a later one, and a rollback is two writes, so any other
  step can fall in between (`TaskProtocol`, `UpgradeProtocol`). On top sit the
  connection registry, the event streams, the dispatcher, and the command streams
  with their flags, claims and queue-change notifications (`ConnectionRegistry`,
  `EventStream`, `ControlDispatcher`, `CommandSession`, `CommandSystem`,
  `CommandWakeUp`, `CommandStranding`, `CommandQuiet`, `CommandLoss`, `CommandSleep`,
  `CommandSleepingRun`, `CommandDelivery`).
* **Package publishing.** Which package is the default for a component, channel and
  target, compared with a log of commits, with admin handlers that check first and
  write later (`PackagePublishing`).
* **Installer.** Every single write to disk is an operation, apply and rollback are
  plans of such writes, and a crash is a cut after any of them (`InstallerDisk`,
  `InstallerOperations`, `InstallerSafety`, `InstallerRetry`, `InstallerStubs`,
  `InstallerCuts`, `InstallerOutcome`).
* **ZIP writer and reader**, down to the bytes of APPNOTE.TXT sections 4.3.7, 4.3.12
  and 4.3.16, with the patch-back seek and the backward scan (`ZipBytes`,
  `ArchivePath`, `ZipFormat`, `ZipWriter`, `ZipReader`, `ZipRoundTrip`).
* **Frame codec**: the incremental decoder against a whole-stream parser (`FrameCodec`).

Each class has the source object's fields; its methods are proved equal to functions
of the old state, and the theorems are about those functions over all runs.
What the functions mean is stated apart from them: the methods say their new fields
outright, and lemmas say in written-out conditions when an operation is accepted, what
it leaves, and which check it fails first.
`Enabled`/`Next`/`Run` define a step system: a run is any sequence of steps, of which
those not possible when they come up are skipped, so "for every sequence" means "for
every interleaving".

Where the code falls short of what one would expect of it, the exact condition is
proved instead:

* Looking an agent up in the registry is wrong exactly while a live connection was taken
  from it by registering another agent, and it has not been bound since
  (`ConnectionRegistry.LookupWrongExactly`, `ExactStep`). Binding it then drops that
  other agent's connection (`BindDropsStranger`).
* A wake-up of a command stream is lost when its bound agent has a claimable task and no
  sequence of deliveries of what is under way, anywhere in the system, makes it ask or
  ends its session (`CommandQuiet.Lost`). This is so exactly in quiet states: nothing is
  owed, no claim or checked result under way leads to a task, no command is being sent,
  and a session with a stranded stream has no write or answer to come
  (`CommandLoss.LostExactly`). A stream is stranded exactly when, with the connection
  bound to no agent, it hears a notification with nothing in hand, the completion of the
  write that sent its command, or an empty claim with a refresh behind it
  (`CommandStranding.StrandedExactly`). Without such a step, or a binding to another
  agent, nothing is ever lost (`CommandLoss.UndisturbedNeverLost`). After one it can be,
  from every reachable state (`CommandSleep.StrandedCanLose`), and
  `CommandSleepingRun.SleepingRunIsLost` is a whole run. The loss needs an agent that binds
  again with an event of a stream it has not ended, and lasts until the next write
  completion of the connection (`NextWriteWakes`): the answer to an ended event stream
  already wakes the stream (`AnsweredBindWakes`), and this repository's agent ends every
  one it opens.
* A response to an event stream can precede the completion of a chunk exactly if the
  stopping pool refused one before (`EventStream.AnsweredEarlyExactly`).
* How a stream is cut into pushes does not matter exactly if none of its frames decodes,
  or all do and no over-long length follows (`ControlDispatcher.CutsMatterExactly`).
* An agent that reconnects between the two writes of a rollback is recorded as failed,
  later as succeeded (`UpgradeProtocol.ReconnectInsideRollback`).
* A retired package is served again exactly if a publish of it, or a validation that
  succeeded, had passed its check before the retirement and writes afterwards
  (`PackagePublishing.RetiredServedAgain`); the admin server's default of one thread
  excludes that.
* A failed rollback changes nothing exactly unless all its checks passed, the component
  is not the installer, and the installer in charge cannot be resolved
  (`InstallerStubs.FailedRollbackUnchanged`).
* A rollback that is cut off and run again ends like an uninterrupted one exactly if at
  most its first temporary file had been written; otherwise it is refused for a reason
  that names the window, or switches back (`InstallerCuts.RollbackCutExactly`).
* Stubs are all the active installer's launcher in every run without a crash
  (`InstallerStubs.StubsMatchThroughout`). `InstallerCuts.StubsAtCut` says which are stale
  at every cut of an installer operation; an agent or server operation alone does not
  repair them (`StaleAfterCrash`, `InstallerStubs.CompletedStubs`).
* The ZIP writer allows sizes and offsets of 2^32-1, which the reader takes for the
  ZIP64 marker (APPNOTE.TXT 4.4.1.4): what was written parses exactly if none occurs
  (`ZipRoundTrip.ParsesBack`, `MarkerSizeIsLost`). The CRC function is arbitrary in the
  round trip, because the reader compares the stored fields and never recomputes one.

`dafny verify dfyconfig.toml` checks the project.

## Model

| member | source | states |
|---|---|---|
| FrameCodec.EncodeFrame | libs/transport/src/frame_codec.cpp:21-36 | a payload of at most 2^32-1 bytes becomes its length, most significant byte first, and itself; a longer one is refused |
| FrameCodec.FrameDecoder.Make | libs/transport/src/frame_codec.cpp:38-43 | a decoder exists exactly for a positive limit and starts empty |
| FrameCodec.FrameDecoder.Push | libs/transport/src/frame_codec.cpp:45-67 | one push delivers the frames the whole-stream parser finds in buffer plus bytes, keeps its leftover, and fails exactly on an over-long length |
| FrameCodec.RestIsDrained | libs/transport/src/frame_codec.cpp:45-67 | the leftover holds no complete frame and is shorter than 4 plus the limit |
| FrameCodec.ParseSplit | libs/transport/src/frame_codec.cpp:45-67 | parsing may be suspended after any prefix and resumed from the leftover |
| FrameCodec.PushAllRefinesParse | libs/transport/src/frame_codec.cpp:45-67 | however a stream is cut into pushes, output and leftover are those of the whole-stream parse; before an over-long length what was delivered is a prefix of it |
| FrameCodec.OverlongPrefixIsFinal | libs/transport/src/frame_codec.cpp:51-54 | after an over-long length no later push ever yields a frame |
| FrameCodec.DecodeEncoded | libs/transport/src/frame_codec.cpp:12-67 | encoded payloads within the limit come back exactly, and the parse stops at the first one above it |
| FrameCodec.CutRoundTrip | libs/transport/src/frame_codec.cpp:12-67 | any cut of the bytes of encoded payloads succeeds exactly if all fit, and then yields exactly those payloads |
| FrameCodec.PrefixRoundTrip | libs/transport/src/frame_codec.cpp:12-67 | a partly transmitted stream yields a prefix of the payloads in any cut |
| ControlDispatcher.Dispatcher.PushEventBytes | apps/server/src/control_dispatcher.cpp:31-62 | a push handles the events of all its completed frames in order, each answered by the service's verdict, or none of them; afterwards the agent of the last accepted registration or heartbeat is found on this connection, and without one the registry is untouched |
| ControlDispatcher.Dispatcher.HandleEvents | apps/server/src/control_dispatcher.cpp:53-61 | every event goes to the service, which has seen all before it, and is answered accepted or refused as it says |
| ControlDispatcher.Dispatcher.RecordAcceptedEvent | apps/server/src/control_dispatcher.cpp:64-84 | after a registration or heartbeat the registry finds its agent on this connection, a heartbeat leaves its time and a registration the time that was there; other events, and empty fields, change nothing |
| ControlDispatcher.LastTieIsFound | apps/server/src/control_dispatcher.cpp:53-84 | after any events the last accepted registration or heartbeat decides: its agent is found on this connection, with the time of a heartbeat; without one the registry is as before |
| ControlDispatcher.HandledAppends | apps/server/src/control_dispatcher.cpp:53-61 | every event of a handled chunk is handed to the service once, in order |
| ControlDispatcher.OverlongSilences | apps/server/src/control_dispatcher.cpp:31-38 | nothing that arrives after an over-long length is handled |
| ControlDispatcher.CutsDoNotMatter | apps/server/src/control_dispatcher.cpp:31-62 | for in-order pushes whose frames decode, the events handled and the registry do not depend on how the stream was cut |
| ControlDispatcher.PushHandles | apps/server/src/control_dispatcher.cpp:40-51 | a push handles all the frames it completes if every one of them decodes, and otherwise none |
| ControlDispatcher.OnePush | apps/server/src/control_dispatcher.cpp:31-38 | an over-long length loses every frame completed by the same push |
| ControlDispatcher.FrameByFrame | apps/server/src/control_dispatcher.cpp:40-61 | cut after every frame, exactly the frames that decode are handled, those before an over-long length included |
| ControlDispatcher.NothingDecodes | apps/server/src/control_dispatcher.cpp:40-51 | a stream none of whose frames decodes leaves events and registry as they were, in any cut |
| ControlDispatcher.CutsMatterExactly | apps/server/src/control_dispatcher.cpp:31-62 | for every stream the result is the same in all cuts if and only if no frame decodes, or all do and no over-long length follows |
| ConnectionRegistry.Registry.OpenConnection | apps/server/src/control_connection_registry.cpp:8-27 | an unbound live connection is filed under its id; empty arguments change nothing |
| ConnectionRegistry.Registry.CloseConnection | apps/server/src/control_connection_registry.cpp:29-56 | the connection is removed; it is reported current exactly if the index named it for its agent, and then the index entry goes too |
| ConnectionRegistry.Registry.BindAgentLocked | apps/server/src/control_connection_registry.cpp:137-167 | the agent's index entry names this connection, which is bound to it, created if missing and otherwise keeps its times; the connection named before is gone and every other one is untouched |
| ConnectionRegistry.Registry.BindAgent | apps/server/src/control_connection_registry.cpp:58-70 | empty arguments are refused, otherwise the agent is bound |
| ConnectionRegistry.Registry.RecordHeartbeat | apps/server/src/control_connection_registry.cpp:72-88 | a heartbeat binds like a registration and notes its time |
| ConnectionRegistry.IndexedStep | apps/server/src/control_connection_registry.cpp:8-167 | every operation keeps connections filed under their ids and bound ones named by the index |
| ConnectionRegistry.RunIndexed | apps/server/src/control_connection_registry.cpp:8-167 | in every reachable state each agent has at most one live bound connection, the one the index names |
| ConnectionRegistry.BoundIsOwner | apps/server/src/control_connection_registry.cpp:58-70 | a connection bound to an agent is the one the log of operations says bound it last and was not closed |
| ConnectionRegistry.CloseMarksOwnerOnly | apps/server/src/control_server.cpp:732-741 | closing a bound connection always reports it current, and a session marks an agent offline only if the log says the agent still belongs to that connection |
| ConnectionRegistry.ExactStep | apps/server/src/control_connection_registry.cpp:137-167 | an operation keeps the index free of stale entries if and only if it does not move a bound connection to another agent |
| ConnectionRegistry.LookupMatchesLog | apps/server/src/control_connection_registry.cpp:101-115 | while no connection changes its agent, a lookup answers with the connection the log names, or with none |
| ConnectionRegistry.BoundIsFound | apps/server/src/control_connection_registry.cpp:58-115 | right after it was bound an agent is found on the connection that bound it, with the time of a heartbeat |
| ConnectionRegistry.StaleIsLeft | apps/server/src/control_connection_registry.cpp:137-167 | an index entry is stale exactly if its connection moved on to another agent and the agent was not bound since |
| ConnectionRegistry.LookupWrongExactly | apps/server/src/control_connection_registry.cpp:101-115 | in every run a lookup is wrong if and only if a connection live now left the agent in that way |
| ConnectionRegistry.BindDropsStranger | apps/server/src/control_connection_registry.cpp:150-160 | binding an agent drops a connection that is not its own exactly if its index entry is stale |
| ConnectionRegistry.RebindingMisleadsLookup | apps/server/src/control_connection_registry.cpp:101-115 | after a connection registered a second agent, looking up the first answers with the second one's connection |
| EventStream.StreamState.TrySubmitEventResponse | apps/server/src/control_server.cpp:306-314 | a response goes out once, after END_STREAM, when no chunk is counted as pending |
| EventStream.StreamState.OnDataChunk | apps/server/src/control_server.cpp:316-381 | a chunk is counted, and one the stopping pool refuses is taken off again and marks an error |
| EventStream.StreamState.OnChunkComplete | apps/server/src/control_server.cpp:344-368 | a completion takes one chunk off and records any error or refused event |
| EventStream.StreamState.OnEndStream | apps/server/src/control_server.cpp:405-414 | the end of the body is recorded and may release the response |
| EventStream.InvNext | apps/server/src/control_server.cpp:306-381 | the pending count is what the outstanding chunks less the refusals leave, hence exact until a refusal, in every reachable state |
| EventStream.OneHonestResponse | apps/server/src/control_server.cpp:306-381 | in every run: at most one response, none before END_STREAM, and a 200 only when every submitted chunk completed with all events accepted |
| EventStream.SettledIsAnswered | apps/server/src/control_server.cpp:306-381 | once the body ended and every completion came, the response is there and its status says exactly whether everything was accepted |
| EventStream.RecordsEvents | apps/server/src/control_server.cpp:316-414 | in every run the stream knows of exactly the chunks, the wrong path, the end of the body and the stop that its events brought |
| EventStream.StrayIsRefused | apps/server/src/control_server.cpp:316-330 | data on a wrong path before the end of the body is never answered with 200 |
| EventStream.NoRefusalNeverEarly | apps/server/src/control_server.cpp:306-381 | in every run without a refusal the count is exact and the response waits for every chunk |
| EventStream.AnsweredEarlyExactly | apps/server/src/control_server.cpp:370-378 | an ended, unanswered stream can be answered before a chunk completes if and only if the pool refused one, which is when the count is below the number outstanding |
| EventStream.RefusalCanAnswerEarly | apps/server/src/control_server.cpp:810-825 | a run in which the pool takes a chunk, stops and refuses the next reaches such a stream |
| WriteActor.Actor.Submit | apps/server/src/database.cpp:447-565 | a write is queued, or after the stop answered with an error |
| WriteActor.Actor.Drain | apps/server/src/database.cpp:401-430 | the queue is run in order to its end: database values lead from the initial to the final one; a closed database or a throw leaves the value and answers an error, a commit moves to its value and answers its result |
| WriteActor.PlacesNext | apps/server/src/database.cpp:388-565 | every step moves a submission along without losing or doubling it, and only a run of the task in hand enters the history |
| WriteActor.ExactlyOneAnswer | apps/server/src/database.cpp:388-565 | every write submitted before, during or after the stop gets at most one answer, and exactly one once the actor has exited |
| WriteActor.AcceptedBeforeStop | apps/server/src/database.cpp:447-565 | before the stop every submission is accepted with its number, in order |
| WriteActor.RefusedAfterStop | apps/server/src/database.cpp:447-565 | from the stop on nothing is accepted, and every later submission is told that the actor stopped |
| WriteActor.OneSequentialRun | apps/server/src/database.cpp:401-565 | accepted writes take effect once each in queue order: database values lead from the initial to the present one, each write moves to the value it commits or leaves it, and its caller is told exactly that |
| ServerStore.ServerDatabase.UpsertAgent | apps/server/src/database.cpp:676-778 | an agent row is inserted or updated; the upgrade columns follow the CASE arms, where NULL equals nothing |
| ServerStore.ServerDatabase.MarkAgentOffline | apps/server/src/database.cpp:780-794 | an online agent becomes offline, others are left alone |
| ServerStore.ServerDatabase.EnqueueTask | apps/server/src/database.cpp:865-902 | a task is inserted as queued, or the primary key refuses it and nothing changes |
| ServerStore.ServerDatabase.MarkTaskRunning | apps/server/src/database.cpp:918-936 | an assigned task becomes running; any other is refused and nothing changes |
| ServerStore.ServerDatabase.ClaimNextTaskForAgent | apps/server/src/database.cpp:938-1025 | an oldest claimable task of the agent becomes assigned, or there is none |
| ServerStore.ServerDatabase.RecordTaskResult | apps/server/src/database.cpp:1491-1611 | a result ends a task that has not ended in the state it reports, is stored once, and updates the agent's upgrade if it is of the current task or its prerequisite; a throw leaves every table as it was |
| ServerStore.ServerDatabase.ScheduleAgentUpgrade | apps/server/src/database.cpp:1613-1691 | task, prerequisite and desired columns are written together or not at all |
| ServerStore.ServerDatabase.ScheduleAgentRollback | apps/server/src/database.cpp:1693-1706 | an upgrade to nothing followed by the second write that clears what is desired |
| ServerStore.ServerDatabase.ExpireWaitingReconnect | apps/server/src/database.cpp:1708-1732 | agents waiting longer than ten minutes are marked failed, and exactly those are returned |
| ServerStore.ServerDatabase.HandleTaskRunning | apps/server/src/control_service.cpp:103-147 | an event is accepted, or its audit write fails, exactly for the assigned task of that agent and type; then and only then the task becomes running |
| ServerStore.ServerDatabase.HandleTaskResult | apps/server/src/control_service.cpp:149-205 | a result is written exactly for an unfinished task of that agent and type, with a payload or an error code as its status asks; when only the audit write fails the reply is an error although it was written |
| TaskProtocol.NextAdvances | apps/server/src/database.cpp:918-1025 | no step takes a task back, changes a finished task, or touches a stored result |
| TaskProtocol.RunAdvances | apps/server/src/database.cpp:1491-1564 | over every run task states only move forward and stored results stay |
| TaskProtocol.TaskInvNext | apps/server/src/database.cpp:865-1691 | every step, with any read-then-write interleaving, keeps the results table, the prerequisites, the claims and the accepted events consistent |
| TaskProtocol.RunTaskInv | apps/server/src/database.cpp:865-1691 | that consistency in every reachable state |
| TaskProtocol.AcceptedAtMostOnce | apps/server/src/control_service.cpp:103-205 | however workers interleave between check and write, a task has at most one accepted running event and one accepted result, and each was written |
| TaskProtocol.EndedAsReported | apps/server/src/database.cpp:1491-1564 | in every run a task has a stored result exactly if it has ended; the row is one a worker read, for that task, agent and type, and the task ended in the state and at the time it reports |
| TaskProtocol.HandedOutOnce | apps/server/src/database.cpp:938-1025 | a task is handed out by at most one claim, to its own agent, unexpired, and after a stored result reported the success of its prerequisite |
| TaskProtocol.OldestReadyIsClaimed | apps/server/src/database.cpp:938-1025 | in every run a claim hands out an oldest task that is queued, unexpired and whose prerequisite was reported as succeeded, and comes back empty exactly if there is none |
| TaskProtocol.DeadPrerequisite | apps/server/src/database.cpp:1613-1691 | once a stored result reports that a prerequisite did not succeed, its dependent is never handed out in any continuation |
| TaskProtocol.InTableExactly | apps/server/src/database.cpp:865-1706 | in every run the table holds a task, with its prerequisite, exactly if a step of the run that enqueued or scheduled it went through |
| TaskProtocol.RunningIsAccepted | apps/server/src/control_service.cpp:103-147 | a running event for an assigned task of that agent and type that nothing interferes with is accepted and the task runs |
| TaskProtocol.ResultIsAccepted | apps/server/src/control_service.cpp:149-205 | so is a result for an unfinished task, and it is stored |
| UpgradeProtocol.AgreesNext | apps/server/src/database.cpp:700-764 | every step keeps each agent's upgrade state in agreement with the task table |
| UpgradeProtocol.UpgradeStateAgrees | apps/server/src/database.cpp:1542-1606 | in every run queued means the current upgrade task is not finished and its prerequisite not dead; waiting for the reconnect or succeeded means it succeeded |
| UpgradeProtocol.RegistrationResolves | apps/server/src/database.cpp:716-763 | a registration while waiting resolves the upgrade, to success exactly on the desired version or when no package is desired |
| UpgradeProtocol.SchedulingSupersedes | apps/server/src/database.cpp:1613-1691 | a scheduled upgrade stores the tasks asked for and supersedes the older task and its prerequisite |
| UpgradeProtocol.StaysSuperseded | apps/server/src/database.cpp:1613-1706 | what is superseded stays so in every continuation |
| UpgradeProtocol.SupersededIsInert | apps/server/src/database.cpp:1566-1606 | no result of a superseded task or prerequisite, and no delayed second write of its rollback, changes the agent's row |
| UpgradeProtocol.CurrentNext | apps/server/src/database.cpp:1613-1691 | the current upgrade task changes only to a task that was not in the table before |
| UpgradeProtocol.DesiredNext | apps/server/src/database.cpp:1693-1706 | only scheduling a new current task, or clearing for the current one, changes what is desired |
| UpgradeProtocol.RunClears | apps/server/src/database.cpp:1693-1706 | until its second write a current rollback desires the empty version of the empty package |
| UpgradeProtocol.ReconnectInsideRollback | apps/server/src/database.cpp:1693-1706 | a reconnect between the two writes of a rollback is recorded as failed exactly for a non-empty version; in every later state in which the rollback is current and waits it is recorded as succeeded |
| UpgradeProtocol.PresenceFollowsRun | apps/server/src/database.cpp:676-794 | in every run an agent has a row exactly if it registered, with the version of its last registration; it is online exactly if it did not leave after that, and otherwise the row has the time it first did |
| UpgradeProtocol.ExpiryLeavesNone | apps/server/src/database.cpp:1708-1732 | after an expiry no agent has waited ten minutes or longer: those that had are failed with the timeout as their error, and no other row changed |
| CommandSession.Http2Session.TryStartQueuedCommands | apps/server/src/control_server.cpp:648-680 | claims are submitted for exactly the streams with a pending refresh and nothing in hand, if the session is open and bound |
| CommandSession.Http2Session.FinalizeSentCommandData | apps/server/src/control_server.cpp:293-304 | exactly the streams whose body was read to the end are freed and refreshed |
| CommandSession.Http2Session.FlushOutput | apps/server/src/control_server.cpp:595-607 | a write is started if there is output and none is under way |
| CommandSession.Http2Session.OnTaskQueueChanged | apps/server/src/control_server.cpp:574-585 | a notification refreshes every stream and starts what can start |
| CommandSession.Http2Session.HandleCommandHeadersEnd | apps/server/src/control_server.cpp:268-291 | another method or path answers 400, a connection without an agent 404; otherwise the stream is opened with a refresh and claims are started |
| CommandSession.Http2Session.OnWrite | apps/server/src/control_server.cpp:609-636 | a write completion frees what was sent, keeps writing if output is left, and starts what can start; a closed session only drops the buffer, a failed write closes it, an aborted one does nothing |
| CommandSession.Http2Session.OnCommandClaimComplete | apps/server/src/control_server.cpp:682-715 | a claim completion ends its claim and closes the session, puts a framed task on the stream, or starts again if a refresh came in meanwhile |
| CommandSystem.FlagsNext | apps/server/src/control_server.cpp:648-715 | in every interleaving the claim flag stands for exactly one claim, the data flag for unsent bytes, and never both |
| CommandSystem.FlagsStart | apps/server/src/control_server.cpp:648-680 | starting claims keeps one claim per stream |
| CommandSystem.FlagsHeard | apps/server/src/control_server.cpp:682-715 | hearing a claim completion uses up the one claim of its stream |
| CommandWakeUp.SilentShrinks | apps/server/src/database.cpp:567-588 | a write that does not notify, and a claim, make no task claimable |
| CommandWakeUp.AwakeExecute | apps/server/src/database.cpp:1346-1416 | a claim that finds nothing proves there was nothing; one that finds a task brings it |
| CommandWakeUp.AwakeHeard | apps/server/src/control_server.cpp:682-715 | after an empty claim the stream is covered by a refresh recorded meanwhile or a notification still owed |
| CommandWakeUp.OwedAlong | apps/server/src/database.cpp:567-588 | copying the observers and posting to them one by one loses no session that was owed a notification |
| CommandWakeUp.WakeNext | apps/server/src/control_server.cpp:574-715 | every step keeps every open stream awake for the agent it asked for, whatever happens to the binding |
| CommandWakeUp.RunAwake | apps/server/src/control_server.cpp:574-715 | that invariant in every reachable state |
| CommandWakeUp.NoLostWakeUp | apps/server/src/control_server.cpp:574-715 | an open stream that is not stranded and whose agent has a claimable task has a promising claim, a refresh behind a claim, command bytes outstanding, or a notification owed; fully read bytes have a write completion to come |
| CommandWakeUp.OneClaimAtATime | apps/server/src/control_server.cpp:648-715 | a stream never has two claims in flight, and never one while a command is being sent |
| CommandStranding.StrandedExactly | apps/server/src/control_server.cpp:648-657 | a step strands an open stream if and only if the connection is unbound and the step is one of three callbacks, and frees it if and only if it is bound and the step starts claims |
| CommandStranding.CalmExactly | apps/server/src/control_server.cpp:574-715 | a step ends the calm of a stream if and only if it strands it or binds the connection to another agent than the stream asked for |
| CommandStranding.OpenedCalm | apps/server/src/control_server.cpp:268-291 | a stream starts calm, and only for a bound connection |
| CommandQuiet.QuietNext | apps/server/src/control_server.cpp:574-715 | no delivery, of claims, notifications, answers, reads, writes or results, ends a quiet state |
| CommandQuiet.QuietKeepsTasks | apps/server/src/control_server.cpp:682-715 | in a quiet state no delivery hands out a claimable task |
| CommandQuiet.QuietIsNeverWoken | apps/server/src/control_server.cpp:574-715 | from a quiet state no sequence of deliveries makes the stream ask for its agent or ends its session |
| CommandLoss.WriteAsks | apps/server/src/control_server.cpp:609-636 | a write completion starts a stranded stream, and one whose command it sent |
| CommandLoss.WaitingAsks | apps/server/src/control_server.cpp:682-707 | a claim with a refresh behind it leads to the next claim, whatever it finds |
| CommandLoss.OwedAsks | apps/server/src/database.cpp:567-588 | a notification owed to a bound session makes every stream of it ask whose claim has not failed |
| CommandLoss.UnsettledAsks | apps/server/src/control_server.cpp:574-715 | whatever a quiet state excludes makes the stream ask |
| CommandLoss.AskingSpreads | apps/server/src/database.cpp:1346-1416 | if any stream can ask for a task that is there, every stream can be made to ask, because the hand-out notifies all |
| CommandLoss.NotQuietWakes | apps/server/src/control_server.cpp:574-715 | outside quiet states some sequence of deliveries makes the stream ask or ends its session |
| CommandLoss.LostExactly | apps/server/src/control_server.cpp:574-715 | in every interleaving, with a claimable task for the bound agent, the wake-up is lost if and only if the state is quiet and none of the session's claims failed; the stream is then stranded or was asking for another agent |
| CommandLoss.NextWriteWakes | apps/server/src/control_server.cpp:609-636 | the next output written on a bound connection wakes its stranded stream |
| CommandLoss.AnsweredBindWakes | apps/server/src/control_server.cpp:344-368 | a binding event of an ended stream wakes it through its own answer |
| CommandLoss.UndisturbedNeverLost | apps/server/src/control_server.cpp:574-715 | a run without a disturbing step has lost no wake-up, losing and regaining the binding included: deliveries make the stream ask while its agent has a task |
| CommandSleep.Deliver | apps/server/src/control_server.cpp:574-715 | for a stranded stream of an unbound connection, claims, results, commands, answers and writes can all be delivered, and it stays stranded |
| CommandSleep.Drain | apps/server/src/control_server.cpp:574-585 | every notification owed to an unbound session can be heard, and is used up without a claim |
| CommandSleep.StrandedCanLose | apps/server/src/control_server.cpp:574-657 | from every reachable state with a stranded stream on an unbound connection, for every agent and new task id, a continuation loses the wake-up of that task |
| CommandSleepingRun.SleepingRunIsLost | apps/server/src/control_server.cpp:574-657 | a run of eighteen steps from the start, all output written, that ends with the agent bound, a claimable task, and the wake-up lost |
| CommandDelivery.FaithfulNext | apps/server/src/control_server.cpp:162-178 | every step keeps bytes read plus bytes unsent equal to the frames of the stream's commands, and the commands equal to the tasks its claims were given |
| CommandDelivery.RunFaithful | apps/server/src/control_server.cpp:162-178 | that invariant in every reachable state |
| CommandDelivery.DeliveredInClaimOrder | apps/server/src/control_server.cpp:682-715 | a frame decoder fed what the session read, in any cut, yields the tasks in claim order, and all of them once nothing is unsent and each fits its limit |
| CommandDelivery.NoTaskHandedTwice | apps/server/src/database.cpp:1346-1416 | no task is put on two streams or twice on one, and every hand-out was justified in the task table |
| CommandDelivery.ShutForGood | apps/server/src/control_server.cpp:609-755 | a session that was shut stays closed in every continuation: its streams are left as they are and no claim is submitted for them any more |
| CommandDelivery.FailedClaimCloses | apps/server/src/control_server.cpp:682-697 | a queued claim that fails closes the session of its open stream when it is answered |
| PackagePublishing.PackageTables.UpsertAgentPackage | apps/server/src/database.cpp:1844-1913 | a package row is inserted or replaced |
| PackagePublishing.PackageTables.PublishAgentPackage | apps/server/src/database.cpp:2020-2095 | clear, upsert and status change happen together or not at all |
| PackagePublishing.PackageTables.RetireAgentPackage | apps/server/src/database.cpp:2097-2118 | status and default rows are withdrawn together or not at all |
| PackagePublishing.InvNext | apps/server/src/database.cpp:2020-2118 | with any handlers interleaved between check and write, the default rows are exactly the live entries of the publish log |
| PackagePublishing.PublishFailsOnlyIfMissing | apps/server/src/database.cpp:341-345 | in no run does clear-then-upsert trip the unique index; a publish fails only for a missing package |
| PackagePublishing.ServesLastPublished | apps/server/src/database.cpp:2120-2168 | a key is served the package last published to it if not retired since and still in published status, and nothing otherwise |
| PackagePublishing.ServedAsPublished | apps/server/src/admin_http_server.cpp:812-853 | in every run what a key is served is a published package of exactly its component, platform, architecture and build type, put on that channel by some publish; the channel is stable, candidate or dev, and stable never has a debug build |
| PackagePublishing.ValidationDecides | apps/server/src/admin_http_server.cpp:766-820 | a validation that nothing interferes with leaves a package validated, or rejected if its stored archive is broken, as every later one does once it broke |
| PackagePublishing.StaysRetired | apps/server/src/admin_http_server.cpp:766-861 | a retired or rejected package with no overtaken publish or successful validation stays withheld in every continuation |
| PackagePublishing.RetiredServedAgain | apps/server/src/admin_http_server.cpp:777-853 | a retired package can be served again if and only if a publish, or a validation that succeeded, is past its check and not yet written |
| PackagePublishing.RetirementCanBeOvertaken | apps/server/src/admin_http_server.cpp:832-853 | a run in which a retirement falls between the check and the write of a publish |
| ZipBytes.OutputFile.Write | libs/package/src/archive.cpp:188-204 | a write at the end appends, elsewhere it overwrites in place |
| ZipBytes.OutputFile.WriteU16 | libs/package/src/archive.cpp:188-194 | a 16-bit field is two bytes, least significant first |
| ZipBytes.OutputFile.WriteU32 | libs/package/src/archive.cpp:196-204 | a 32-bit field is four bytes, least significant first |
| ZipBytes.ByteReader.ReadU16 | libs/package/src/archive.cpp:80-87 | a 16-bit field is read and stepped over, or refused if it does not fit the buffer |
| ZipBytes.ByteReader.ReadU32 | libs/package/src/archive.cpp:89-98 | a 32-bit field is read and stepped over, or refused if it does not fit the buffer |
| ZipBytes.ByteReader.ReadString | libs/package/src/archive.cpp:111-117 | that many bytes are read and stepped over, or refused |
| ZipBytes.ByteReader.Skip | libs/package/src/archive.cpp:119-122 | that many bytes are stepped over, or refused |
| ZipBytes.ReadBack32 | libs/package/src/archive.cpp:460-466 | a 32-bit field reads back as the value written |
| ArchivePath.IsSafeRelativeArchivePath | libs/package/src/archive.cpp:141-168 | a path is accepted exactly if it has no backslash or drive prefix and every slash-separated part is a plain name |
| ArchivePath.SafeMeans | libs/package/src/archive.cpp:141-168 | a path is safe exactly if it has no backslash and no drive letter with a colon in front, and no segment between slashes or ends is empty, `.` or `..` |
| ArchivePath.BeforeMeans | libs/package/src/archive.cpp:287-290 | one path precedes another exactly if it is a proper prefix of it or smaller at the first byte that differs |
| ArchivePath.BeforeTotal | libs/package/src/archive.cpp:287-290 | the order entries are sorted by is total and strict |
| ArchivePath.BeforeTransitive | libs/package/src/archive.cpp:287-290 | the order entries are sorted by is transitive |
| ZipFormat.LocalHeaderAt | libs/package/src/archive.cpp:294-308 | every field of a local header has the value and the place APPNOTE.TXT 4.3.7 gives it |
| ZipFormat.CentralEntryAt | libs/package/src/archive.cpp:435-458 | every field of a central directory entry has the value and the place APPNOTE.TXT 4.3.12 gives it |
| ZipFormat.EndRecordAt | libs/package/src/archive.cpp:1071-1078 | every field of the end record has the value and the place APPNOTE.TXT 4.3.16 gives it |
| ZipFormat.OwnFileMode | libs/package/src/archive.cpp:426-433 | the mode written is a regular file's and carries exactly the executable bit |
| ZipWriter.CollectErrorMeans | libs/package/src/archive.cpp:262-276 | collecting succeeds exactly for safe, distinct paths that fit their length fields and files that fit theirs |
| ZipWriter.CollectComplains | libs/package/src/archive.cpp:242-292 | a complaint is about the first file that cannot be taken after those before it, and is the first about that file in the order of the checks |
| ZipWriter.CollectSourceEntries | libs/package/src/archive.cpp:242-292 | the files in path order, or the first complaint in directory order |
| ZipWriter.SortOrdered | libs/package/src/archive.cpp:287-290 | files with distinct paths come out strictly ordered |
| ZipWriter.WriteLocalFileHeader | libs/package/src/archive.cpp:294-308 | a local header with zero sizes is appended |
| ZipWriter.PatchLocalFileHeader | libs/package/src/archive.cpp:310-326 | bytes 14 to 25 of the header are replaced and the position returns to the end |
| ZipWriter.PatchedHeader | libs/package/src/archive.cpp:310-326 | a patched zero header is the header with its sizes, and nothing around it changes |
| ZipWriter.WriteCentralDirectoryEntry | libs/package/src/archive.cpp:435-458 | one directory entry is appended |
| ZipWriter.WriteEntry | libs/package/src/archive.cpp:1007-1038 | header, deflated data and patch leave exactly the local entry with its final sizes |
| ZipWriter.CreateArchive | libs/package/src/archive.cpp:971-1079 | the archive is local entries in path order, directory and end record, or the error of the first failing check |
| ZipReader.EndInTail | libs/package/src/archive.cpp:482-511 | an end record whose comment fits lies in the last 65557 bytes, and is one there exactly if it is one in the file |
| ZipReader.LocateEndOfCentralDirectory | libs/package/src/archive.cpp:474-531 | scanning only the tail backwards finds what searching the whole file finds, errors included |
| ZipReader.LocatedExactly | libs/package/src/archive.cpp:474-531 | for arbitrary bytes the record used is the right-most one whose comment ends with the file; it is refused exactly for several disks or a ZIP64 marker, and otherwise its three fields are the answer |
| ZipReader.ReadItem | libs/package/src/archive.cpp:550-578 | one directory entry is read field by field from the offsets of APPNOTE.TXT 4.3.12, never leaving the buffer, and is refused exactly if it does not fit or has another signature; only entries made on Unix can be executable |
| ZipReader.CheckEntry | libs/package/src/archive.cpp:580-637 | an entry is accepted if no check fails and is otherwise refused for the first that does, file types of entries made on Unix included |
| ZipReader.RefusesFirst | libs/package/src/archive.cpp:580-637 | the checks of an entry with their conditions written out, and the first failing one reported |
| ZipReader.EntryAccepted | libs/package/src/archive.cpp:550-646 | an entry is accepted exactly if it can be read, its path is new, and it is a regular, unencrypted, stored or deflated file with a safe path and no ZIP64 marker |
| ZipReader.ParseCentralDirectory | libs/package/src/archive.cpp:533-647 | the records of any bytes, or the first error |
| ZipReader.EntriesSound | libs/package/src/archive.cpp:550-646 | what was parsed came from acceptable entries with distinct paths that tile the directory |
| ZipReader.EntriesComplete | libs/package/src/archive.cpp:550-646 | acceptable entries with distinct paths that tile the directory are parsed, to their records |
| ZipReader.ParsedExactly | libs/package/src/archive.cpp:533-647 | arbitrary bytes parse to some records if and only if those are the records of acceptable entries that tile the central directory exactly |
| ZipReader.ParseRefused | libs/package/src/archive.cpp:533-647 | an archive that does not parse is refused for its end record, for a directory that leaves the file, or at the first entry after acceptable ones, for its first failing check |
| ZipReader.ReadLocalFileInfo | libs/package/src/archive.cpp:658-739 | where an entry's data lies once the local header agrees with the directory, or the first disagreement |
| ZipReader.LocatesData | libs/package/src/archive.cpp:658-739 | an entry's data is found exactly if its local header is complete and agrees with the directory in every field; otherwise the first disagreement is reported |
| ZipReader.ReadArchiveEntryBytes | libs/package/src/archive.cpp:741-854 | stored data of the right size is the content; deflated data is what it inflates to if that has the right size; anything else is refused |
| ZipReader.ListArchiveEntries | libs/package/src/archive.cpp:1109-1129 | path, executable bit and sizes of every record in order |
| ZipReader.FindArchiveRecord | libs/package/src/archive.cpp:856-865 | a record of that path, or none if there is none |
| ZipReader.ReadArchiveFile | libs/package/src/archive.cpp:1131-1147 | the content of the one record of that path, or the error of the first failing check |
| ZipRoundTrip.EndFound | libs/package/src/archive.cpp:474-531 | a written archive is read through its own end record, whatever its data looks like |
| ZipRoundTrip.EntriesReadBack | libs/package/src/archive.cpp:550-646 | written entries parse back to their records, unless one has the uncompressed size of the ZIP64 marker |
| ZipRoundTrip.ContentReadsBack | libs/package/src/archive.cpp:658-739 | the patched local header agrees with the record and the data inflates to the content |
| ZipRoundTrip.WrittenExactly | libs/package/src/archive.cpp:1040-1069 | an archive is written if and only if paths are safe and distinct, the manifest is there, and every size, both totals and the count fit their fields |
| ZipRoundTrip.RefusedExactly | libs/package/src/archive.cpp:1004-1069 | files that can all be collected make no archive exactly for want of a manifest, for a file that deflates to too much, or for too many bytes or files, and the reason given is that one |
| ZipRoundTrip.ParsesBack | libs/package/src/archive.cpp:517-520 | what was written parses to the same records if and only if no size and no offset is 2^32-1, and otherwise is refused as ZIP64 |
| ZipRoundTrip.RoundTrip | libs/package/src/archive.cpp:1004-1147 | a written archive lists exactly its files in path order with their bits and sizes, and every one reads back as its content |
| ZipRoundTrip.MarkerSizeIsLost | libs/package/src/archive.cpp:596-600 | a file of 2^32-1 bytes is packed without complaint and the archive cannot be parsed |
| InstallerDisk.ReadTrimmed | apps/installer/src/installer.cpp:75-92 | a version file's text without surrounding white space |
| InstallerDisk.TrimmedMeans | apps/installer/src/installer.cpp:75-92 | trimming leaves the piece of the text between the white space at both ends |
| InstallerDisk.VersionReadsBack | apps/installer/src/installer.cpp:251-263 | a version written with its newline reads back as itself and is safe |
| InstallerDisk.ValidateReleaseDirectory | apps/installer/src/installer.cpp:173-249 | a directory validates exactly if its manifest is there, loads and names component and version, every listed file is there with its size, hash and launchable bit, and an installer brings a launchable launcher; otherwise the first failing check is reported |
| InstallerDisk.ValidatesExactly | apps/installer/src/installer.cpp:173-249 | that condition written out for the release a version names, and for every problem the check it stands for with those before it passed |
| InstallerDisk.InspectActiveRelease | apps/installer/src/installer.cpp:370-422 | whether the active version is missing, names a release that validates, or why it is corrupt |
| InstallerDisk.InspectsExactly | apps/installer/src/installer.cpp:370-422 | the active version is missing without its file, installed exactly if it is a safe name of a release that validates, and otherwise corrupt for the first reason |
| InstallerDisk.ExecConcat | apps/installer/src/installer.cpp:454-532 | writes compose |
| InstallerOperations.Disk.WriteVersionFile | apps/installer/src/installer.cpp:251-263 | the temporary file, then the rename, with the removal in between if the rename is refused |
| InstallerOperations.Disk.SwitchActiveVersion | apps/installer/src/installer.cpp:430-437 | the previous version is recorded first, and only when a different healthy one was active |
| InstallerOperations.Disk.StageRelease | apps/installer/src/installer.cpp:265-302 | the writes of staging, up to the first file that cannot be copied |
| InstallerOperations.Disk.EnsureLauncherStubs | apps/installer/src/installer.cpp:343-368 | the writes that refresh the named stubs from one release, or an error if it has no launcher |
| InstallerOperations.Disk.ApplyPackageDirectory | apps/installer/src/installer.cpp:454-532 | the writes of an apply in order, and how it ends |
| InstallerOperations.Disk.RollbackComponent | apps/installer/src/installer.cpp:561-649 | the writes of a rollback in order, and how it ends |
| InstallerSafety.WriteVersionEffect | apps/installer/src/installer.cpp:251-263 | with or without a refused rename a version file ends up with the version |
| InstallerSafety.StageEffect | apps/installer/src/installer.cpp:265-302 | staging touches only its staging area and, when it succeeds, leaves the release the manifest describes |
| InstallerSafety.StubsEffect | apps/installer/src/installer.cpp:343-368 | refreshed stubs are executable copies of the release's launcher; nothing else changes |
| InstallerSafety.StagedValidates | apps/installer/src/installer.cpp:265-302 | whatever StageRelease builds from an accepted manifest passes ValidateReleaseDirectory, up to the launcher asset |
| InstallerSafety.InvDo | apps/installer/src/installer.cpp:496-508 | only a promotion and a version-file replacement can endanger what is installed |
| InstallerSafety.ApplyGuarded | apps/installer/src/installer.cpp:454-532 | every promotion in an apply is of a release that validates and every replacement names one |
| InstallerSafety.RollbackGuarded | apps/installer/src/installer.cpp:619-621 | every replacement in a rollback names a release that validates |
| InstallerSafety.RunInv | apps/installer/src/installer.cpp:454-649 | after any commands, each cut off anywhere, releases validate and version files name them |
| InstallerSafety.ActiveAlwaysValidates | apps/installer/src/installer.cpp:370-422 | at every point between two writes of every run the active version, when present, names a release that is there, and every release has its manifest, its files with size, hash and bit, and an installer its launcher |
| InstallerRetry.ApplyOutcome | apps/installer/src/installer.cpp:454-532 | what a successful apply leaves, independent of the file system's choices |
| InstallerRetry.ApplyExactly | apps/installer/src/installer.cpp:454-532 | an apply succeeds exactly under the checks on package, installer and release; a failed one leaves only staging areas behind |
| InstallerRetry.MidRecords | apps/installer/src/installer.cpp:424-437 | an interrupted apply does not change whether, and with what, the previous version is recorded |
| InstallerRetry.ApplyMid | apps/installer/src/installer.cpp:496-517 | every state an interrupted apply can leave, write by write |
| InstallerRetry.MidOutcome | apps/installer/src/installer.cpp:454-532 | from each of them the apply is accepted again with the same outcome |
| InstallerRetry.ApplyIsRetriable | apps/installer/src/installer.cpp:454-532 | stopped after any write, any number of times, with or without refused renames, and run again, an apply reaches the releases, versions and stubs of an uninterrupted one |
| InstallerRetry.FailingApplyRetried | apps/installer/src/installer.cpp:454-532 | a failing apply, stopped after any write any number of times, leaves everything but staging areas as it was and fails again |
| InstallerStubs.RollbackEffect | apps/installer/src/installer.cpp:561-649 | a rollback succeeds exactly if it has a target and the installer in charge resolves; without the latter it has switched the versions |
| InstallerStubs.FailedRollbackUnchanged | apps/installer/src/installer.cpp:619-640 | a failed rollback changes nothing if and only if not (all checks passed, another component than the installer, installer unresolvable) |
| InstallerStubs.HealthyInstallerRollback | apps/installer/src/installer.cpp:619-640 | with a healthy installer whose version parses a failed rollback changes nothing |
| InstallerStubs.RollbackTwice | apps/installer/src/installer.cpp:561-649 | after a successful rollback a second one succeeds and restores both versions and all releases; stubs too exactly if they were the active launcher before |
| InstallerStubs.CompletedStubs | apps/installer/src/installer.cpp:480-517 | after a completed operation all three stubs are the active launcher if and only if it was on the installer or the other two were before |
| InstallerStubs.FailedStubs | apps/installer/src/installer.cpp:561-640 | a failed operation leaves matching stubs matching |
| InstallerStubs.StubsMatchThroughout | apps/installer/src/installer.cpp:480-517 | in every run without a crash all three stubs are the active installer's launcher after every operation |
| InstallerCuts.WriteVersionPrefix | apps/installer/src/installer.cpp:251-263 | after each of its writes a version file is untouched, removed for a refused rename, or replaced |
| InstallerCuts.RollbackMid | apps/installer/src/installer.cpp:561-649 | every disk an interrupted rollback can leave: five states of the version files, and stubs that differ only once both are switched |
| InstallerCuts.RollbackCutExactly | apps/installer/src/installer.cpp:561-649 | for every cut what a second run comes to, with the reason it is refused for; it reaches the uninterrupted rollback if and only if no version file was touched |
| InstallerCuts.StubsAtCut | apps/installer/src/installer.cpp:480-517 | at every cut of an installer apply, re-apply or rollback, exactly which stubs match the active launcher |
| InstallerCuts.StaleAfterCrash | apps/installer/src/installer.cpp:508-517 | cut after the switch to a new launcher all stubs are stale, and of the operations completed next exactly those on the installer repair all |
| InstallerOutcome.AppliesExactly | apps/installer/src/installer.cpp:454-532 | an apply succeeds exactly if an installer in order is new enough and the release is there in order, or else every file is in the package with its size and hash, none in the way of another, and an installer ships a launchable launcher |
| InstallerOutcome.ApplyStops | apps/installer/src/installer.cpp:454-532 | a failing apply reports the first check that failed, for a package file the first that cannot be copied |
| InstallerOutcome.AppliedVersions | apps/installer/src/installer.cpp:424-532 | a successful apply makes the version active over the release that was there or an exact copy of the package; the version that ran before, if another, becomes the previous one, and otherwise the previous one stays |
| InstallerOutcome.AppliedElsewhere | apps/installer/src/installer.cpp:343-368 | other components keep releases and versions; the refreshed stubs are executable copies of the active installer's launcher and the others stay |
| InstallerOutcome.RollsBackExactly | apps/installer/src/installer.cpp:561-649 | a rollback succeeds exactly if the previous version file names another release that validates and, except for the installer, an installer in order supports it; otherwise the reason is the first condition missing |
| InstallerOutcome.RolledBackDisk | apps/installer/src/installer.cpp:619-649 | a rollback that has somewhere to go swaps the two versions and nothing else, even if it fails afterwards; on success stubs are refreshed |
| InstallerOutcome.ApplyRolledBack | apps/installer/src/installer.cpp:424-649 | after a successful apply over another running version a rollback succeeds, makes that version active again over its own release and keeps the applied one as previous |

## Left out

- HTTP/2 framing, sockets, TLS, timers and threads: only the callbacks are modelled, as atomic steps on one strand.
- SQLite, schema migration and busy retries: a write is an atomic transaction on maps with primary keys and rollback; order of rows with equal keys is left open.
- zlib and OpenSSL: deflate and inflate are any pair with inflate(deflate(x)) = x, SHA-256 and CRC-32 are any functions.
- Protobuf, JSON and TOML codecs, and the enum and string tables: payload decoding and manifest parsing are parameters.
- Version text parsing: versions are parsed by a parameter into triples, of which only the value for "0.0.0" is ever assumed.
- Real paths, symlinks, Windows permission rules and the copying of .dll files beside the stubs: a directory is a map from relative path to content and a launchable bit.
- Failing disk operations other than a refused rename over a version file: a failed write counts as a crash.
- Atomic renames and removals are single writes; removing a staging area goes file by file in any order.
- Registration tokens, asset snapshots, audit payloads and task result blobs: they do not feed back into the modelled tables, except that a failing audit write turns an accepted reply into an error.
- The handlers in front of upgrade and rollback, and the asynchronous store methods the control path does not use.
- The stored online status is not tied to the registry: the source promises no lock step.
- ControlServer::Stop and its deadlines, the web UI, install commands, logging, configuration, GetStatus, and the agent's own HTTP client.
- Chunks of one event stream that the worker pool reorders: the dispatcher's theorems are about in-order pushes.
- CommandDelivery.DeliveredInClaimOrder: the encoded task is assumed to fit a 32-bit length, which the frame encoder would refuse otherwise, and stream ids are not reused within a connection.
- PackagePublishing.ServesLastPublished: package ids are fresh and contain no colon, and a stored archive may break but never turns into another or heals, so a package keeps its metadata.
- InstallerDisk.ValidateReleaseDirectory: the refusals of symbolic links are left out, because a directory here has no links.
- InstallerOperations.Disk.StageRelease: the refusals of symbolic links in a package are left out likewise.
- InstallerOperations.Disk.EnsureLauncherStubs: the .dll files copied beside a stub and the refusal of a linked launcher are left out.
- CommandLoss.LostExactly: what fails is no delivery: a queued claim that ends in an error closes its session, and an event stream that is reset first is not answered.
- ZipFormat.OwnFileMode: the Windows build, which writes mode 0644 for executables too, is left out.
- CommandSession.Http2Session.OnWrite: in the joint system a failed write is the closing of its session, as one step.
- ZipWriter.CreateArchive: the output path checks, the directory walk and file opening are I/O; the files are given as a list in any order.
- ZipReader.ReadArchiveFile: extraction to a directory is not modelled beyond the content of one file.

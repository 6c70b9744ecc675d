# Silicon Office, verified

Silicon Office shows running coding-agent sessions as desks in a small window. Hook events reach a
daemon over UDP; the daemon keeps one mutable record per session and broadcasts newline-framed JSON
over TCP; any number of frontends rebuild the session table from that stream and give every session a
desk. An installer merges the hooks into a settings file, and the frontend keeps a cached usage total.

This project models that logic in Dafny and proves what it is for. The main results:

- **Agreement** (`World.FrontendsAgreeWithRegistry`): in every state of every run of a daemon and any
  number of frontends, with bytes cut into reads anyhow and connections lost and reopened, a served and
  greeted frontend that absorbs everything queued, buffered, unread and pending shows exactly the
  registered sessions with their registered state, label and since, although diffs serialise mutable
  records late and some mutations send nothing.
- **Service** (`Agreement.ServedIffJoinedAndStaying`, `GreetedIffSentSnapshot`): who is served after any
  run, and whether it was sent a snapshot, from the steps alone: a client goes only by disconnecting or by
  a write to it that fails. The stream and agreement theorems are about those clients.
- **Registration** (`Registry.RegisteredIffEnteredAndNotEnded`): after any run a session is registered iff it
  entered and has since neither ended nor been found dead.
- **Healing** (`World.DisorderedWorldsHeal`, `Agreement.OneSnapshotHeals`): one snapshot makes any
  replica, reached by any messages at all, equal to the registry on every wire field; and after any run,
  with removals overtaking diffs and connections cut anywhere, once the tasks then pending have run in
  order, every frontend sent a snapshot agrees again and goes on agreeing.
- **Quiescence** (`World.QuietIsReachable`): from every reachable state, running the pending tasks, reading
  what arrived and draining the queue puts exactly the absorbed replica on show.
- **Refinement** (`Agreement.DaemonRefinesRegistry`, `Registry.SessionIsolation`): records shared by
  reference and mutated in place behave as a registry of values, in which sessions do not interfere.
- **Subagent brackets** (`StateMachine.SubagentBracketRestores`, `StackDepthIsMaxSuffix`,
  `StackHoldsLabelsBeforeUnmatchedStarts`), **desks** (`DeskLayout.RunKeepsPartitionAndPeak`,
  `DeskIsStable`, `DesksNeverOverlap`, `ColumnFitsExactly`), **installer algebra**
  (`Installer.LatestBuildWins`, `RoundTripIffClean`, `BuildConservesForeignEntries`) and the **usage
  cache under a stat/read race** (`Usage.RefreshesMatchUncachedRescans`).

## How it is built

Each component has a specification on values (functions such as `StateMachine.Step`, `Registry.Next`,
`DeskLayout.Assign`, `Frontend.HandleMessage`, `Broadcast.After`, `Installer.Build`) with lemmas over
whole runs, and the classes of the program (`AgentRecord`, `SessionRegistry`, `Broadcaster`,
`DaemonProcess`, `NDJSONBuffer`, `NetClient`, `Layout`, `App`, `SettingsFile`, `UsageTracker`), whose
methods update their fields in place and are proved to do exactly what the specification says.

| file | component |
|---|---|
| `Schema.dfy` | records, wire form, messages |
| `StateMachine.dfy` | hook event transitions, label stack |
| `Registry.dfy` | session registry, by value and by reference; cold start |
| `Ipc.dfy`, `WireCodec.dfy` | line framing over a codec parameter; one concrete codec |
| `Frontend.dfy` | replica, ghosts, timers, the `App` object |
| `Layout.dfy` | desk slots and geometry |
| `Broadcast.dfy`, `Agreement.dfy` | the daemon as a step system, and its runs |
| `DaemonProcess.dfy` | the daemon's objects, refining those steps |
| `NetClient.dfy`, `World.dfy` | the network thread; daemon, bytes and frontends together |
| `Installer.dfy` | settings merge and the install command |
| `Usage.dfy` | weekly window, totals, file cache |
| `SeqLemmas.dfy` | sequence facts |

## Where the code does less than it may seem

- The frontend skips diffs whose session id is empty but accepts such a session from a snapshot. So
  per-session agreement is for non-empty ids; `NewSessionReachesReplicaIffNamed` gives the exact
  condition, and `NamedSessionsAgreeTotally` the equality of session sets when every event is named.
- The reaper broadcasts its removals itself instead of scheduling them. `SweepAgreesIffNothingIsOvertaken`
  says when that breaks agreement: exactly if a removed session has a pending diff. `OvertakingIsReachable`
  is the smallest case, one event after cold start. It takes a diff still pending when the reaper wakes;
  since callbacks run in the order of their creation, that means a diff held up by a suspended write.
  A removal held up itself does harm exactly if its session is back and the diff saying so is already out
  (`LateRemovalAgreesIffNotOutrun`). Runs of the step system may overtake; the agreement theorems are about
  those that do not (`InOrder`), the healing theorems start from any.
- A client whose greeting could not be written stays in the client set until a later write to it fails or
  its read loop sees the connection close. `GreetedStreamIsComplete` therefore holds exactly if the greeting
  was written.
- Subagent brackets restore the label and the stack, not the state. `BracketRestoresStateIffLastEventDoes`
  gives the condition for any traffic inside the bracket; an empty one restores it iff the agent was working.
- Installing with an emitter path that lacks the marker adds a group and a backup on every run, and no
  uninstall finds it again; `InstallIsIdempotentIffMarked`, `RepeatedRunIsUpToDateIffMarked`,
  `RoundTripIffClean`. Uninstalling drops foreign groups with an empty hook list, so it is the identity
  exactly on clean settings; `UninstallIsIdentityIffClean`.
- The documentation of `desk_rect` says rows fit until the minimum gap no longer does. The exact bound is
  half a gap kinder: the column fits iff `rows * 204 - 2 <= h` (`ColumnFitsExactly`).

## Model

| member | source | states |
|---|---|---|
| StateMachine.ProjectNameIsLastComponent | src/silicon_office/daemon/state_machine.py:43-46 | a path's project name is its last slash-free component, trailing slashes ignored |
| StateMachine.ProjectNameOfBarePath | src/silicon_office/daemon/state_machine.py:43-46 | an empty path is "unknown"; a path of slashes only keeps itself as its name |
| StateMachine.ApplyEvent | src/silicon_office/daemon/state_machine.py:49-124 | mutates the record it is given to the specified value, or allocates one; reports upsert, remove or noop; null exactly on remove |
| StateMachine.ApplyTransition | src/silicon_office/daemon/state_machine.py:73-124 | the branches on the event name: the record's whole new value, and the op |
| StateMachine.NoopIsSilent | src/silicon_office/daemon/state_machine.py:118-124 | an event that sends no diff changes nothing a diff publishes, only the cwd |
| StateMachine.HandledEventsAreInstalled | src/silicon_office/common/constants.py:18-30 | the events the installer subscribes to are exactly those the state machine acts on |
| StateMachine.OpByKind | src/silicon_office/daemon/state_machine.py:116-124 | a SessionEnd removes, an unhandled event of a known session is a no-op, all else is an upsert |
| StateMachine.KindsByName | src/silicon_office/daemon/state_machine.py:76-116 | which event name is which kind |
| StateMachine.ToolLabelsByName | src/silicon_office/daemon/state_machine.py:24-40 | the label of every tool, of an unknown one and of none |
| StateMachine.FirstEventByFields | src/silicon_office/daemon/state_machine.py:58-71 | every field of the record a session's first event leaves |
| StateMachine.LabelIsOfLastLabellingEvent | src/silicon_office/daemon/state_machine.py:76-115 | after any history the label is the one its last labelling event put up |
| StateMachine.SinceIsOfLastRestart | src/silicon_office/daemon/state_machine.py:76-115 | after any history the status dates from the last event that restarted the clock; a tool result does so only after a pause |
| StateMachine.CwdIsOfLastMove | src/silicon_office/daemon/state_machine.py:70-71 | the directory is the last one an event came with |
| StateMachine.LastDecisiveEventSetsState | src/silicon_office/daemon/state_machine.py:73-122 | after any history the state is the one the last decisive event asks for; asking exactly from a permission request to the next such event |
| StateMachine.ToolResultsKeepTheClock | src/silicon_office/daemon/state_machine.py:3-8 | tool results of a working agent change neither state, label nor since |
| StateMachine.SubagentBracketRestores | src/silicon_office/daemon/state_machine.py:108-115 | start, any balanced traffic, stop: label and label stack are exactly those before |
| StateMachine.BracketRestoresStateIffLastEventDoes | src/silicon_office/daemon/state_machine.py:76-122 | after a bracket around any traffic the state is the one before it iff the bracket's last decisive event asks for that state |
| StateMachine.EmptyBracketRestoresStateIffWorking | src/silicon_office/daemon/state_machine.py:108-115 | so an empty bracket restores it iff it was Working |
| StateMachine.StackDepthIsMaxSuffix | src/silicon_office/daemon/state_machine.py:108-115 | stack depth is the maximum over suffixes of starts minus stops, unmatched stops included |
| StateMachine.StackHoldsLabelsBeforeUnmatchedStarts | src/silicon_office/daemon/state_machine.py:108-115 | each stack entry is the label held just before its unmatched start, in order |
| Registry.RegisteredIffEnteredAndNotEnded | src/silicon_office/daemon/registry.py:70-113 | after any run a session is registered iff it entered, or was there, and since then no SessionEnd came and no sweep found its pid dead |
| Registry.ReapingKeepsTheLiving | src/silicon_office/daemon/registry.py:103-113 | reaping keeps exactly the sessions without a known pid and those with a living one |
| Registry.ResolutionByFields | src/silicon_office/daemon/registry.py:84-92 | only pid, entrypoint and name come from the file, and only for a session without a pid |
| Registry.IdentityAfterEvent | src/silicon_office/daemon/registry.py:74-92 | an event looks the identity up unless it is unhandled |
| Registry.SessionIsolation | src/silicon_office/daemon/registry.py:70-113 | a session's entry after any interleaved run is the fold of its own steps only |
| Registry.RunKeepsWellKeyed | src/silicon_office/daemon/registry.py:70-113 | every reachable registry files each record under its own session id |
| Registry.KnownPidIsPermanent | src/silicon_office/daemon/registry.py:84-92 | within a record's life a known pid never changes, nor the entrypoint and name found with it |
| Registry.SweepsKeepStatus | src/silicon_office/daemon/registry.py:94-113 | identity retries and reaping never touch state, label, since or label stack |
| Registry.ColdStartRegistersLiveSessions | src/silicon_office/daemon/main.py:30-48 | cold start registers exactly the sessions with a live file, each with every field as the last such file says |
| Registry.EventRefinesValues | src/silicon_office/daemon/registry.py:74-82 | mutating shared record objects is, by value, one event step of the registry |
| Registry.OtherRecordsStay | src/silicon_office/daemon/registry.py:74-101 | detached records and those of other sessions are left alone by events and identity retries |
| Registry.SweepRefinesValues | src/silicon_office/daemon/registry.py:94-113 | resolving and reaping by reference are the value steps |
| Registry.SessionRegistry.Seed | src/silicon_office/daemon/registry.py:70-72 | registers the given object under its id |
| Registry.SessionRegistry.ColdStart | src/silicon_office/daemon/main.py:30-48 | the registry's values are those of the live files, later files winning |
| Registry.SessionRegistry.ApplyEvent | src/silicon_office/daemon/registry.py:74-82 | whole new registry state and returned reference, for known and unknown sessions; untouched by an unknown SessionEnd |
| Registry.SessionRegistry.ResolveOne | src/silicon_office/daemon/registry.py:84-92 | a record without a pid takes pid, entrypoint and name from its file |
| Registry.SessionRegistry.ResolvePendingIdentities | src/silicon_office/daemon/registry.py:94-101 | every registered record resolved, whatever the iteration order; detached records untouched |
| Registry.SessionRegistry.ReapDead | src/silicon_office/daemon/registry.py:103-113 | removes and reports exactly the sessions with a known dead pid, each once |
| DeskLayout.SyncEffect | src/silicon_office/frontend/layout.py:41-51 | under any iteration order: exactly the given sessions hold slots, old holders keep theirs, capacity is max(old, count) |
| DeskLayout.SlotsAreReusedInOrder | src/silicon_office/frontend/layout.py:26-48 | newcomers get slots in the order in which they were freed, and new ones only when none is free |
| DeskLayout.PeakIsLargest | src/silicon_office/frontend/layout.py:3-9 | the peak is the largest session count of a run |
| DeskLayout.RunKeepsPartitionAndPeak | src/silicon_office/frontend/layout.py:26-51 | along any run occupied and free slots partition 0..next-1, and next is the peak |
| DeskLayout.DeskIsStable | src/silicon_office/frontend/layout.py:26-76 | a session shown throughout keeps its slot, and its rectangle while capacity is not exceeded |
| DeskLayout.RowTopByRoom | src/silicon_office/frontend/layout.py:69-75 | where a row starts: full margin and centred, an even share of the height, or hanging at the minimum gap |
| DeskLayout.DeskByWindow | src/silicon_office/frontend/layout.py:62-76 | a desk's rectangle: centred, at most 320 wide with its margin, 200 high, at its row's top |
| DeskLayout.RowsStayApart | src/silicon_office/frontend/layout.py:66-76 | after truncation to pixels rows keep the minimum gap, in slot order |
| DeskLayout.DesksNeverOverlap | src/silicon_office/frontend/layout.py:53-76 | desks of distinct sessions stay at least the minimum gap apart, ordered by slot |
| DeskLayout.ColumnFitsExactly | src/silicon_office/frontend/layout.py:54-61 | all rows lie inside the window height iff rows * 204 - 2 <= h |
| DeskLayout.DeskFitsWidthExactly | src/silicon_office/frontend/layout.py:65-76 | a desk lies inside the window width iff the width is at least the margin |
| DeskLayout.Layout.constructor | src/silicon_office/frontend/layout.py:20-24 | an empty layout with one row |
| DeskLayout.Layout.AssignSlot | src/silicon_office/frontend/layout.py:26-34 | whole new slot state: the oldest free slot first, else a new one |
| DeskLayout.Layout.ReleaseSlot | src/silicon_office/frontend/layout.py:36-39 | whole new slot state: a held slot goes to the end of the free list |
| DeskLayout.Layout.Sync | src/silicon_office/frontend/layout.py:41-51 | a possible outcome of the set iteration; partition, holders and capacity as promised |
| DeskLayout.Layout.Desk | src/silicon_office/frontend/layout.py:53-76 | the specified rectangle, or none exactly for a session without a slot |
| Ipc.SplitReassembles | src/silicon_office/common/ipc.py:39-49 | lines consumed plus residual reconstruct all bytes |
| Ipc.SplitHoldsNoNewline | src/silicon_office/common/ipc.py:39-49 | neither residual nor lines hold a newline |
| Ipc.LineYields | src/silicon_office/common/ipc.py:42-48 | a line of whitespace only, byte by byte, or an undecodable one yields nothing, any other its message |
| Ipc.ChunkingInvariance | src/silicon_office/common/ipc.py:29-49 | any cutting into feeds gives the messages and residual of one feed |
| Ipc.FramingRoundTrip | src/silicon_office/common/ipc.py:16-49 | messages with blank or undecodable lines among them arrive exactly, in order, nothing left over |
| Ipc.CutDeliversPrefix | src/silicon_office/common/ipc.py:29-49 | a cut stream delivers a prefix of its messages; the missing bytes deliver the rest |
| Ipc.NDJSONBuffer.Feed | src/silicon_office/common/ipc.py:39-49 | messages and new residual are those of residual plus data; no newline stays |
| WireCodec.MessageCodecIsFaithful | src/silicon_office/common/ipc.py:16-26 | a codec meeting the framing hypotheses exists for every message |
| Frontend.SnapshotErasesHistory | src/silicon_office/frontend/main.py:146-152 | once a snapshot is in the stream the replica's earlier state has no influence |
| Frontend.SnapshotReplacesAgents | src/silicon_office/frontend/main.py:146-152 | a snapshot leaves exactly its sessions, on all fields; dropped ones join the ghosts, resurrected ones leave them |
| Frontend.SnapshotStartsSpawnTimers | src/silicon_office/frontend/main.py:161-179 | spawn timers after a snapshot: kept for those that stay, new for sessions not shown before |
| Frontend.DisplayFollowsReplica | src/silicon_office/frontend/main.py:141-179 | the display's session table is the replica's, whatever the clocks say |
| Frontend.MessageKeepsTidy | src/silicon_office/frontend/main.py:141-179 | agents and ghosts stay disjoint, timers stay within agents; what is shown grows by the message's sessions |
| Frontend.GhostSweepKeepsTidy | src/silicon_office/frontend/main.py:181-191 | a sweep keeps exactly the ghosts whose fade began less than 0.4 s ago, unchanged |
| Frontend.RemovalStartsFade | src/silicon_office/frontend/main.py:172-178 | a removed agent becomes a ghost as it last was, fading from that moment |
| Frontend.GhostStaysUntilFaded | src/silicon_office/frontend/main.py:141-191 | over any run that does not bring it back a ghost stays until the first sweep at least 0.4 s after its fade began, and is gone from then on |
| Frontend.MessageSetsTimers | src/silicon_office/frontend/main.py:141-178 | a timer starts iff the session was not on show, or did not ask, before; a running one is never restarted; the light follows the notices |
| Frontend.MessageKeepsAskersTimed | src/silicon_office/frontend/main.py:164-169 | every asking agent has a flash timer, after any message |
| Frontend.QueueFollowsReplica | src/silicon_office/frontend/main.py:133-139 | draining a queue leaves the replica of its messages in order, tidily |
| Frontend.App.constructor | src/silicon_office/frontend/main.py:95-102 | an empty display with an empty layout and queue |
| Frontend.App.Upsert | src/silicon_office/frontend/main.py:161-170 | whole new display; every agent and ghost has its own desk; no desk in use moves |
| Frontend.App.Despawn | src/silicon_office/frontend/main.py:172-179 | whole new display: the agent becomes a ghost and keeps its desk |
| Frontend.App.Receive | src/silicon_office/frontend/main.py:141-159 | whole new display for any message; no desk in use moves |
| Frontend.App.ReceiveSnapshot | src/silicon_office/frontend/main.py:146-152 | merging then fading, in any iteration order, is the one-step snapshot |
| Frontend.App.DrainQueue | src/silicon_office/frontend/main.py:133-139 | all queued messages applied in order, queue empty |
| Frontend.App.SweepGhosts | src/silicon_office/frontend/main.py:181-191 | expired ghosts go and release their desks; the others keep theirs |
| Broadcast.PendingSettles | src/silicon_office/daemon/main.py:61-63 | lagging by the pending tasks is exactly: running them, on the records as they are now, brings every status home |
| Broadcast.ServedAfterStep | src/silicon_office/daemon/broadcaster.py:28-44 | a connecting client is served, and so is everyone who was, unless it disconnects or a write to it fails |
| Broadcast.StreamsGrowUntilFailure | src/silicon_office/daemon/broadcaster.py:46-75 | a step writes nothing to who is not served, and to a client what it broadcasts up to the first failed write |
| Broadcast.EventSchedulesByKind | src/silicon_office/daemon/main.py:61-63 | what an event schedules, by kind, and that it touches no connection |
| Broadcast.DiffCarriesItsRecord | src/silicon_office/common/schema.py:54-81 | a diff carries every field of its record as it is when the broadcast runs |
| Broadcast.SnapshotCarriesTheRegistry | src/silicon_office/common/schema.py:60-66 | a snapshot carries every field of every registered record |
| Broadcast.SweepKeepsTheLiving | src/silicon_office/daemon/reaper.py:22-24 | a sweep keeps exactly the sessions with no pid after a look at their files, or with a living one |
| Broadcast.StepKeepsFollowing | src/silicon_office/daemon/main.py:56-63 | every daemon step keeps pending tasks leading home and following replicas following |
| Broadcast.StepKeepsSoundBut | src/silicon_office/daemon/main.py:61-63 | of pending tasks that do not lead home, an orderly step makes no more, and a task run makes one less |
| Broadcast.StepStreams | src/silicon_office/daemon/broadcaster.py:54-75 | a step extends the stream of a client that stays by exactly what it broadcasts |
| Agreement.ReachableStatesFollow | src/silicon_office/daemon/broadcaster.py:28-75 | from any sound state on, every client sent a snapshot since lags by the pending tasks only |
| Agreement.ServedIffJoinedAndStaying | src/silicon_office/daemon/broadcaster.py:28-75 | the clients after any run are those that connected in it, or were there, and have since neither disconnected nor failed a write |
| Agreement.GreetedIffSentSnapshot | src/silicon_office/daemon/broadcaster.py:28-66 | a client is served and was sent a snapshot iff, by the steps, it was greeted or there for a periodic one, and stayed |
| Agreement.StreamsAreGapless | src/silicon_office/daemon/broadcaster.py:46-75 | in any run, overtaking ones included, a client that stays is sent exactly what is broadcast, in order |
| Agreement.GreetedStreamIsComplete | src/silicon_office/daemon/broadcaster.py:28-44 | its stream is the connect-time snapshot plus all broadcasts since, iff the greeting was written |
| Agreement.StreamsAgreeWithRegistry | src/silicon_office/daemon/main.py:51-76 | stream plus pending tasks show the registered sessions and their status, in every reachable state |
| Agreement.DaemonRefinesRegistry | src/silicon_office/daemon/registry.py:60-113 | over any run the daemon's records are those of the plain registry, session by session |
| Agreement.SnapshotRestoresEveryField | src/silicon_office/daemon/broadcaster.py:62-66 | after any messages, one snapshot makes a replica equal to the registry on all wire fields |
| Agreement.StaleTasksRunOut | src/silicon_office/daemon/broadcaster.py:54-60 | from any state, once the tasks then pending have run in order, pending tasks lead home again |
| Agreement.OneSnapshotHeals | src/silicon_office/daemon/broadcaster.py:3-8 | from any state, once its pending tasks have run, a snapshot makes any replica equal to the registry and later broadcasts keep status agreement |
| Agreement.DisorderIsHealed | src/silicon_office/daemon/reaper.py:30-34 | from any state, however disordered the run to it, every client sent a snapshot once the stale tasks have run agrees again |
| Agreement.PendingRunsDry | src/silicon_office/daemon/broadcaster.py:54-60 | pending tasks run to completion, sending what they would send now |
| Agreement.SweepAgreesIffNothingIsOvertaken | src/silicon_office/daemon/reaper.py:22-24 | reaper removals keep agreement iff they overtake no pending diff of a removed session |
| Agreement.OvertakingIsReachable | src/silicon_office/daemon/reaper.py:22-24 | one event after cold start a sweep can overtake a pending diff |
| Agreement.LateRemovalAgreesIffNotOutrun | src/silicon_office/daemon/reaper.py:23-24 | a removal held up keeps agreement iff its session is gone or has a diff pending |
| Agreement.NewSessionReachesReplicaIffNamed | src/silicon_office/frontend/main.py:153-159 | a new session reaches replicas by its diff iff its id is not empty |
| Agreement.NamedSessionsAgreeTotally | src/silicon_office/emitter/hook_emitter.py:40-44 | with named events the replica's session set is the registry's, with equal status |
| DaemonProcess.Broadcaster.Write | src/silicon_office/daemon/broadcaster.py:46-52 | the message joins that one stream iff the connection is alive |
| DaemonProcess.Broadcaster.Broadcast | src/silicon_office/daemon/broadcaster.py:68-75 | every client gets the message, those that fail are dropped and reached by nothing |
| DaemonProcess.Broadcaster.HandleClient | src/silicon_office/daemon/broadcaster.py:28-34 | the client joins, and its stream starts with the greeting if that was written |
| DaemonProcess.DaemonProcess.constructor | src/silicon_office/daemon/main.py:51-54 | the daemon starts with the live sessions, nothing pending, nobody connected |
| DaemonProcess.DaemonProcess.OnEvent | src/silicon_office/daemon/main.py:56-63 | one event step: registry changed at once, the diff only scheduled, by reference |
| DaemonProcess.DaemonProcess.RunNext | src/silicon_office/daemon/broadcaster.py:54-60 | the oldest task sends its record as it is now |
| DaemonProcess.DaemonProcess.SendSnapshot | src/silicon_office/daemon/broadcaster.py:62-66 | one periodic snapshot step |
| DaemonProcess.DaemonProcess.Accept | src/silicon_office/daemon/broadcaster.py:28-34 | one connect step, greeted with the snapshot of the moment |
| DaemonProcess.DaemonProcess.Disconnect | src/silicon_office/daemon/broadcaster.py:40-44 | one drop step |
| DaemonProcess.DaemonProcess.ReaperIteration | src/silicon_office/daemon/reaper.py:22-24 | one sweep step: resolve, reap, one removal broadcast each |
| NetClient.CutConnectionDeliversPrefix | src/silicon_office/frontend/net_client.py:62-72 | a connection cut anywhere queues a prefix of the messages sent, all of them if not cut |
| NetClient.QueuedIsFramedByNotices | src/silicon_office/frontend/net_client.py:43-72 | what an attempt queues: success, the messages of all bytes read, loss; or failure alone |
| NetClient.NetClient.ReadLoop | src/silicon_office/frontend/net_client.py:62-72 | the queue gains exactly the messages of the bytes read before closing, from a fresh buffer |
| NetClient.NetClient.Attempt | src/silicon_office/frontend/net_client.py:45-56 | status notices around whatever was received |
| NetClient.NetClient.Run | src/silicon_office/frontend/net_client.py:43-60 | attempts queue their output one after another; no bytes carry over between connections |
| World.TurnKeepsInv | src/silicon_office/frontend/net_client.py:43-72 | every step of daemon, network or frontend keeps the in-flight invariant |
| World.ReachableWorldsAreSound | src/silicon_office/frontend/main.py:109-139 | the in-flight invariant holds in every reachable state |
| World.FrontendsAgreeWithRegistry | src/silicon_office/frontend/main.py:141-179 | once everything in flight and pending is absorbed, a served frontend shows the registry's sessions and status |
| World.LightIsHonest | src/silicon_office/frontend/main.py:144-145 | in every reachable state a frontend with a drained queue shows itself connected iff it is |
| World.NamedFrontendsAgreeTotally | src/silicon_office/frontend/main.py:141-179 | when every event is named, the absorbed session table is the registry's, sessions and status |
| World.DisorderedWorldsHeal | src/silicon_office/frontend/net_client.py:43-72 | after any run, overtaking and cuts included, frontends sent a snapshot once the stale tasks have run agree again |
| World.QuietFrontendsShowTheRegistry | src/silicon_office/frontend/main.py:141-179 | with nothing in flight or pending, what is shown is the registry; the whole table when every event is named |
| World.QuietIsReachable | src/silicon_office/frontend/main.py:133-139 | running pending tasks, reading and draining reaches quiescence from any reachable state, showing exactly the absorbed replica |
| Installer.MarkedMeans | src/silicon_office/installer/install_hooks.py:47-48 | an entry is ours iff its command is something, then `claude-vo-emit`, then something |
| Installer.StripOursFrom | src/silicon_office/installer/install_hooks.py:51-62 | the loop builds exactly the stripped groups |
| Installer.BuildUpdatedSettings | src/silicon_office/installer/install_hooks.py:69-87 | the event-by-event edit equals the simultaneous update of all target events |
| Installer.LatestBuildWins | src/silicon_office/installer/install_hooks.py:69-87 | idempotence, upgrade and uninstall after install: the last operation alone decides |
| Installer.InstallIsIdempotentIffMarked | src/silicon_office/installer/install_hooks.py:47-87 | installing twice equals once iff the path holds the marker |
| Installer.UninstallIsIdentityIffClean | src/silicon_office/installer/install_hooks.py:51-87 | uninstall changes nothing iff no marked entry, empty group, empty target list or empty hook map |
| Installer.RoundTripIffClean | src/silicon_office/installer/install_hooks.py:69-87 | uninstall after install restores the settings iff they were clean and the path marked |
| Installer.BuildConservesForeignEntries | src/silicon_office/installer/install_hooks.py:51-87 | per event the ordered foreign entries with their group attributes survive, an unmarked install adding its own at the end; other events, present or not, and keys untouched |
| Installer.BuildLeavesOneMarkedEntry | src/silicon_office/installer/install_hooks.py:65-87 | after install the last group is ours, with its one entry given by value, and no other entry is marked; after uninstall none is |
| Installer.RunByCases | src/silicon_office/installer/install_hooks.py:105-130 | outcome, file and backups for every file, path and flag: refusal, dry run, nothing to do, change |
| Installer.RepeatedRunIsUpToDateIffMarked | src/silicon_office/installer/install_hooks.py:105-130 | repeating a command writes and backs up nothing iff it uninstalls or its path is marked |
| Installer.SettingsFile.Run | src/silicon_office/installer/install_hooks.py:105-130 | outcome, file and backups, including refusal of invalid JSON and dry runs |
| Usage.WeekWindowIsUnique | src/silicon_office/frontend/usage.py:42-49 | the window starts at the one Thursday 06:00 with start <= now < start + 7 days |
| Usage.WeekWindowIsMonotone | src/silicon_office/frontend/usage.py:42-49 | the window never moves back, and not at all within a week |
| Usage.SinceSelects | src/silicon_office/frontend/usage.py:165-171 | exactly the entries no older than the cutoff are counted, each once and in order |
| Usage.TotalsAreWindowed | src/silicon_office/frontend/usage.py:145-171 | the session's totals sum exactly the entries of the last five hours, the week's those since the last Thursday 06:00 |
| Usage.RereadIffStatChanged | src/silicon_office/frontend/usage.py:158-163 | a file is read again iff it is new or its mtime or size changed |
| Usage.CacheHoldsStattedFiles | src/silicon_office/frontend/usage.py:151-174 | the new cache holds exactly the files listed and statted |
| Usage.UsageTracker.Refresh | src/silicon_office/frontend/usage.py:141-178 | new cache, and published totals over the two windows, stated by positions and sums; untouched without a projects directory |
| Usage.UsageTracker.AddEntries | src/silicon_office/frontend/usage.py:165-171 | the running totals are those of all entries so far |
| Usage.HitIsCurrent | src/silicon_office/frontend/usage.py:158-163 | a hit holds the entries of the version just statted, even if the file grew between an earlier stat and read |
| Usage.CacheStaysSound | src/silicon_office/frontend/usage.py:151-174 | over any run of refreshes every cached record stems from a real stat and a later read |
| Usage.RefreshesMatchUncachedRescans | src/silicon_office/frontend/usage.py:141-178 | what a refresh counts is what an uncached rescan of versions between each file's stat and read would, and the published totals are its two windows' |

## Left out

- Sockets, asyncio, threads, timeouts, sleeps, backoff and signals: their outcomes (reads of any size, failed writes, refused connections, lost connections, which step comes next) are arbitrary inputs.
- DaemonProcess.Broadcaster.Write: a write that fails is taken to deliver nothing; the bytes of a message partly written before the failure are not represented.
- Agreement.SweepAgreesIffNothingIsOvertaken: takes the removals of a sweep as one step with it, while the original awaits them one by one; a removal held up by a suspended write is covered by `LateRemovalAgreesIffNotOutrun` only.
- World.FrontendsAgreeWithRegistry: takes broadcasts as starting in creation order and completing at once, because a `drain()` suspended by backpressure may reorder them; for loss, duplication and reordering only healing by a snapshot is claimed, and agreement after it again takes them in order.
- pygame drawing, sprites, themes and the retirement of spawn and asking timers by drawing; of the geometry, everything but the desk rectangles.
- JSON text: the codec is a parameter with stated hypotheses (no newline in a body, section 7 of RFC 8259; decoding an encoded body gives the message back). Messages are taken in the shapes `common/schema.py` builds; the `v` and `ts` fields, and the record fields `agent_kind` and `parent_session_id`, which the daemon never changes, are omitted.
- Clocks and times are integers (milliseconds or seconds); costs and pixel positions are exact reals. Floating-point rounding is not modelled.
- Session files are a map from session id to what the file says, and liveness a set of session ids, both arbitrary at every step; the file reads themselves are not modelled.
- UDP reception, `HookEvent.from_dict`, the emitter's summaries and the price table.
- Installer: settings of other shapes (where the original raises), the order of JSON object keys, temporary files, and two backups within one second sharing a name. A command counts as text whatever its JSON type.
- Usage: files are append-only; a scan cut short by a read error, daylight-saving changes and lines being parsed are not modelled (parsing is an arbitrary function of the content).
- Agreement of cwd and identity fields between snapshots: the code does not provide it.

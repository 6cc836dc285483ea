# A verified model of lemul

lemul runs terminal sessions inside workspace tasks and lets clients come and go: a supervisor in
each task owns the PTYs, a control plane places and stops tasks, and a relay carries the bytes. This
project models the parts of it whose correctness depends on more than one function at a time, and
proves what they promise. `dafny verify dfyconfig.toml` checks everything.

Each protocol is a state machine: `World` is the state, `Event` one atomic step of one party, and
`Run` any sequence of events, so a lemma about `Run` holds for every schedule, failure and restart
the events can express. The objects the program updates in place are classes whose methods are
proved against the functions the state machine is made of.

| file | what it models |
|---|---|
| `Modes`, `ModeTracker` | the terminal-mode scanner and its prelude |
| `Reattach` | why prelude and replay equal the whole stream, and exactly when |
| `Ring`, `Attachment`, `Session`, `SessionObject` | replay buffer, client queues, one session under all schedules |
| `SessionLimits` | sessions in which a condition of the reattach theorem fails |
| `Manager` | one session per id, forking outside the lock |
| `Cascade`, `Sweep`, `Reaper` | the auto-stop cascade from process table to warm-hold stop |
| `Snapshots` | preserving a disk across concurrent stops and crashes |
| `Fencing` | placement, generations, admission and the life of a task |
| `Registry` | tunnels, waiters and the hand-off between them |
| `SignUp`, `Uids` | the first-request race and uid allocation |
| `Creds`, `Nonces` | derived credentials and their single use |
| `Framing`, `Detach`, `Idempotency` | frames over any chunking, the detach key, the placement key |
| `Decimal`, `BigEndian`, `Collections`, `Ecma48`, `Workspaces` | numerals and other shared vocabulary |

Four promises turn out to need a condition. Each has the condition, a run from the start that breaks
without it, and a proof that with it nothing can:

* A reattached client equals one that never left if and only if the replay reaches the stream's
  position and makes up for the 64-mode cap (`Reattach.ReattachExact`). `SessionLimits` has the runs
  where either fails, for every size of the replay buffer.
* A disk is never lost if and only if no stop writes back a snapshot id that has been or is about to
  be dropped (`Snapshots.SafeExactly`, `Snapshots.RepeatedIdLosesSnapshot`); runners that never repeat
  an id ensure it.
* Fencing holds while a deleted workspace's name is not recorded again
  (`Fencing.ReplacedIsNeverAdmitted`, `Fencing.ReuseBreaksFencing`).
* An attach credential is accepted again if and only if some sweep since its acceptance, its own use's
  included, worked with a reading of the clock past its expiry (`Nonces.AcceptedAgainExactly`). The
  code takes that reading before the lock, so it can happen with every redemption's own reading in time
  (`Nonces.OlderReadingCanRepeat`); read under the lock it could not (`Nonces.SingleUseWithOneReading`).

Where code and comments disagree the model follows the code. The comment on `ErrUnauthorized` in
`internal/agent/agent.go` says a restart of the control plane invalidates every credential; the code
derives credentials from the recorded generation, so they survive one
(`Fencing.CurrentTaskReconnects`).

## Model

| member | source | states |
|---|---|---|
| `Modes.FeedConcat` | internal/ptysession/modes.go:69-101 | Feeding two chunks one after the other is feeding their concatenation, so where a read happens to cut the output never matters. |
| `Modes.FeedWellFormed` | internal/ptysession/modes.go:33-101 | Every state the scanner can reach, after any bytes: between sequences nothing is buffered, inside one at most 64 bytes that open a CSI and hold no final byte, at most 64 modes, each mode a 64-bit number, and each remembered keyboard sequence a complete CSI of its own kind. |
| `Modes.FeedCsi` | internal/ptysession/modes.go:86-143 | A complete control sequence met between sequences has exactly the effect of committing it and leaves the scanner between sequences. |
| `Modes.OverlongIsDropped` | internal/ptysession/modes.go:90-97 | A sequence still open at its 65th byte is dropped and changes nothing at all. |
| `Modes.SetFieldsExactly` | internal/ptysession/modes.go:104-128 | A DECSET or DECRST with any number of parameters, under the cap or without one: no mode is forgotten, a mode a numeric parameter names has the new value unless it is new and the map is full, and every other mode is as it was. |
| `Modes.NewModeExactly` | internal/ptysession/modes.go:119-127 | A mode not yet tracked gets in if and only if the map had room where the parameters first name it. |
| `Modes.PreludeRoundTrip` | internal/ptysession/modes.go:150-172 | A fresh scanner, capped or not, fed the prelude of any well-formed scanner ends between sequences with the same modes except 2026 and byte for byte the same keyboard sequences. |
| `Modes.ReachablePreludeRoundTrip` | internal/ptysession/modes.go:150-172 | The same for every state any output can produce, read by the client's terminal or by another scanner. |
| `Modes.NoPreludeAtStart` | internal/ptysession/modes.go:150-172 | Before any output the prelude is empty. |
| `Modes.PreludeLength` | internal/ptysession/modes.go:43-47 | However long the session, a prelude is at most 64*24 + 2*65 bytes. |
| `ModeTracking.ModeTracker.constructor` | internal/ptysession/modes.go:59-61 | A new tracker is the fresh scanner state. |
| `ModeTracking.ModeTracker.AtBoundary` | internal/ptysession/modes.go:66 | True exactly between sequences. |
| `ModeTracking.ModeTracker.Feed` | internal/ptysession/modes.go:69-101 | The in-place byte loop leaves the object in the state the recursive scanner gives for the whole chunk. |
| `ModeTracking.ModeTracker.FeedByte` | internal/ptysession/modes.go:70-100 | One iteration of the loop is one step of the scanner. |
| `ModeTracking.ModeTracker.FeedCsiByte` | internal/ptysession/modes.go:88-98 | The branch for a byte inside a control sequence: commit, drop or collect. |
| `ModeTracking.ModeTracker.CommitFinal` | internal/ptysession/modes.go:104-143 | Interpreting the buffered sequence in place is the scanner's commit, early returns included. |
| `ModeTracking.ModeTracker.SetAll` | internal/ptysession/modes.go:113-128 | The loop over the parameters, which skips what is no number and what the cap has no room for. |
| `ModeTracking.ModeTracker.Prelude` | internal/ptysession/modes.go:150-172 | The buffer built from the map in whatever order it is walked is the one prelude of the tracked modes. |
| `ModeTracking.ModeTracker.SortedModes` | internal/ptysession/modes.go:151-159 | Collecting from an unordered walk and sorting gives the non-transient modes, ascending, each once. |
| `ModeTracking.ModeTracker.Render` | internal/ptysession/modes.go:160-168 | The writing loop prints one sequence per mode, in order. |
| `Reattach.AgreeForever` | internal/ptysession/session.go:216-261 | Two terminals that agree go on agreeing whatever both are sent. |
| `Reattach.TrackedCutsTerminal` | internal/ptysession/modes.go:43-47 | After any output the capped tracker differs from the client's terminal only in modes, knows none wrongly, and misses some only once it holds 64. |
| `Reattach.WithinCap` | internal/ptysession/modes.go:43-47 | While at most 64 distinct modes have been named the tracker misses nothing. |
| `Reattach.SeededTerminal` | internal/ptysession/session.go:236-251 | The terminal of a newly seeded client: the tracked modes with whatever the replay writes on top. |
| `Reattach.ReattachExact` | internal/ptysession/session.go:216-261 | For every output and every clean replay: the seeded client is in the state of a client that saw everything if and only if the replay reaches the stream's position and sets again every mode the cap made the tracker miss. |
| `Reattach.ReattachEqualsNeverDetached` | internal/ptysession/session.go:216-261 | Under those conditions the late client stays in agreement with one attached from the start, whatever is sent afterwards. |
| `Replay.EvictKeepsLongest` | internal/ptysession/ring.go:34-42 | Eviction keeps every run of newest chunks that fits the limit, unbroken, and what it keeps fits. |
| `Replay.RetainsPush` | internal/ptysession/ring.go:34-42 | After any push the retained chunks are the end of the whole output, each in its place, and each clean mark says truly whether the stream was between sequences there. |
| `Replay.SnapshotIsCleanSuffix` | internal/ptysession/ring.go:44-68 | A snapshot is a suffix of the output that starts between control sequences, or nothing. |
| `Replay.SnapshotFits` | internal/ptysession/ring.go:44-68 | A snapshot is never longer than what the buffer holds. |
| `Replay.Ring.constructor` | internal/ptysession/ring.go:27-32 | An empty buffer; a limit that is not positive means the default. |
| `Replay.Ring.Push` | internal/ptysession/ring.go:34-42 | The in-place loop with its running byte count leaves exactly the evicted list, and the count stays right. |
| `Replay.Ring.SnapshotBytes` | internal/ptysession/ring.go:48-68 | The two loops return everything from the oldest clean chunk on. |
| `Attachments.PushedKeeps` | internal/ptysession/attachment.go:64-84 | A push keeps the count right and within the limit, appends exactly its bytes to an open queue, and overflows if and only if the queue was open and the bytes did not fit. |
| `Attachments.Attachment.constructor` | internal/ptysession/attachment.go:54-61 | A new queue is open and empty, with the default limit if none is given. |
| `Attachments.Attachment.Push` | internal/ptysession/attachment.go:64-84 | The whole new state, including the overflow latch that empties the queue. |
| `Attachments.Attachment.Next` | internal/ptysession/attachment.go:88-101 | The oldest piece while there is one; the close reason only once the queue is empty. |
| `Attachments.Attachment.Close` | internal/ptysession/attachment.go:125-134 | The first reason stays. |
| `Sessions.RunKeeps` | internal/ptysession/session.go:162-269 | The invariant of the session world holds after every schedule of reads, attaches, detaches, exits and client reads: tracker and ring match the output, and each client's received and queued bytes are exactly what it is owed unless its queue overflowed. |
| `Sessions.Delivery` | internal/ptysession/attachment.go:63-101 | For every schedule and client: what Next returned is always the beginning of seed plus live output, the queue never exceeds its limit, and once Next has reported a reason other than overflow every byte pushed before the close has been returned. |
| `Sessions.FirstReasonWins` | internal/ptysession/attachment.go:123-134 | Once a queue is closed its reason is the same after every continuation. |
| `Sessions.LateClientEqualsEarlyClient` | internal/ptysession/session.go:216-261 | In every schedule a client that attached late and has caught up is in the terminal state of one that saw the whole stream: all of it while attached or when the session ended under it, up to its detach otherwise. |
| `Sessions.EarlyClientSeesEverything` | internal/ptysession/session.go:216-261 | A client attached before any output is handed the live stream itself, byte for byte. |
| `Sessions.SeedFits` | internal/ptysession/session.go:236-251 | A replay buffer that leaves room for a prelude cannot overflow a new client's queue. |
| `Sessions.SeedingNeverOverflows` | internal/ptysession/session.go:236-251 | With such a ring limit, as the default is, no schedule reaches a state where seeding a new client overflows. |
| `SessionLimits.DirtyFills` | internal/ptysession/ring.go:34-58 | Whatever the ring limit and whatever came before: more reads that stop just after an ESC than the ring holds bytes leave no chunk a replay may start from. |
| `SessionLimits.MidSequenceNeedsReplay` | internal/ptysession/ring.go:44-58 | For every ring limit, a run of reads, an attach and a Next after which the client has caught up with every mode covered and is still not in the state of the stream, because it stopped inside a sequence. |
| `SessionLimits.CapNeedsReplay` | internal/ptysession/modes.go:43-47 | For every ring limit and every number of modes from 65 to 2026, a run after which the client has caught up at the stream's position and has lost a mode. |
| `SessionObjects.Session.constructor` | internal/ptysession/session.go:105-157 | A new session has a fresh tracker, an empty ring and no clients: it matches the initial state of the session world. |
| `SessionObjects.Session.Fanout` | internal/ptysession/session.go:162-184 | One read: the boundary is tested before the tracker is fed, then ring and every attached queue get the same bytes; an object that matches a session world matches it after the Output step. |
| `SessionObjects.Session.PushAll` | internal/ptysession/session.go:173-176 | Walking the attached clients in any order pushes the bytes to each exactly once. |
| `SessionObjects.Session.Attach` | internal/ptysession/session.go:230-261 | Refused exactly after exit; otherwise a new client whose queue holds the prelude and then the replay, registered with the others, which is the Attach step. |
| `SessionObjects.Session.SeededAttachment` | internal/ptysession/session.go:236-251 | The queue of a new client after both pushes. |
| `SessionObjects.Session.Detach` | internal/ptysession/session.go:263-269 | The client is deregistered and its queue closed as detached, unless it was closed before: the two steps of a detach. |
| `SessionObjects.Session.Finish` | internal/ptysession/session.go:186-214 | Every client still attached is closed with session ended, and none stays attached: the Finish step. |
| `Managing.RunKeeps` | internal/ptysession/manager.go:48-85 | Over every interleaving of creates, forks, exits and reaps the map holds exactly the live sessions, each under its own id. |
| `Managing.OneLiveSessionPerId` | internal/ptysession/manager.go:48-85 | No two live sessions share an id. |
| `Managing.ReapRemovesOwnSession` | internal/ptysession/manager.go:78-85 | Deleting by id removes the very session whose read loop ended and leaves every other entry. |
| `Managing.LoserNeverBound` | internal/ptysession/manager.go:63-70 | A child whose create lost the race is never in the map and never reported, however the run goes on. |
| `Managing.ExitAtMostOnce` | internal/ptysession/manager.go:78-85 | OnExit has fired at most once per child, and exactly once for those bound and reaped. |
| `Managing.Manager.constructor` | internal/ptysession/manager.go:33-46 | The manager holds exactly the sessions of the initial world. |
| `Managing.Manager.FirstLook` | internal/ptysession/manager.go:50-56 | The answer is whether a live session has the id. |
| `Managing.Manager.SecondLook` | internal/ptysession/manager.go:63-72 | The child becomes live if and only if no live session had the id by then, and no other session is touched. |
| `Managing.Manager.Create` | internal/ptysession/manager.go:50-76 | Look, fork without the lock, look again, with any events of other calls in between: refused at once if the id is taken; otherwise the child is bound if and only if the others left the id free, and no other session is touched. |
| `Managing.Manager.ReapSession` | internal/ptysession/manager.go:78-85 | Deleting the id ends exactly the session whose read loop ended. |
| `Cascade.SampleKeepsTracker` | internal/supervisor/activity.go:73-94 | A sample keeps the tracker no older than every sighting of a live descendant of the session's current process. |
| `Cascade.SampleSentOk` | internal/supervisor/activity.go:96-149 | Every entry of a report bounds every such sighting, and says zero when the sample itself saw one. |
| `Cascade.StoppableExactly` | internal/mgmtapi/admission.go:133-146 | Some report can get a session stopped if and only if the level that decides sets a timeout: its own override if it has one, otherwise the workspace. |
| `Cascade.StopsExactly` | internal/mgmtapi/reaper.go:117-153 | The sessions stopped are exactly those recorded ones with an entry idle for their own timeout. |
| `Cascade.RunKeeps` | internal/mgmtapi/reaper.go:59-288 | Every step of task, network, control plane and operator keeps the world consistent, deadlines and pin times included. |
| `Cascade.EveryStopIsJustified` | internal/mgmtapi/reaper.go:59-288 | Over every run, with policy changes, lost and late reports, dropped tunnels and restarts anywhere: each idle stop rests on a fresh genuine report of a recorded session that was unattended, quiet in output and model traffic for its whole timeout and seen without a tool throughout; each warm-hold stop on a strictly earlier evaluation whose hold has run out and since which every evaluation saw no session. |
| `Cascade.SentComesFromSample` | internal/supervisor/activity.go:96-149 | Every report in flight was sampled by an event of the run. |
| `Cascade.PinnedSinceIsTrue` | internal/mgmtapi/reaper.go:162-192 | The recorded pin time is the time of an evaluation since which every evaluation found only background processes. |
| `Cascade.IdleStopSawNoTool` | internal/supervisor/activity.go:151-166 | Behind every idle stop there is a sample that named the session and saw no tool. |
| `Cascade.ToolKeepsSessionAlive` | internal/supervisor/activity.go:111-131 | A session with a tool in every sample is never stopped for being idle. |
| `Reaping.HasRunningTool` | internal/supervisor/activity.go:151-166 | True exactly when some process of the session other than its own is not a zombie. |
| `Reaping.ActivityTracker.constructor` | internal/supervisor/activity.go:69-71 | Nothing observed. |
| `Reaping.ActivityTracker.ObserveTool` | internal/supervisor/activity.go:73-87 | The in-place update is one observation, and the time returned is the one stored. |
| `Reaping.ActivityTracker.SampleOne` | internal/supervisor/activity.go:111-146 | One session's entry comes from its observation at this sample; an unreadable process table counts as a running tool. |
| `Reaping.ActivityTracker.SessionActivity` | internal/supervisor/activity.go:96-149 | One sample of all sessions, in order, leaves the tracker as observing each of them once. |
| `Reaping.StopIdleSessions` | internal/mgmtapi/reaper.go:91-160 | The loop sends exactly the stops the verdicts call for, in order, and reports a workspace held only by background processes. |
| `Reaping.Reaper.constructor` | internal/mgmtapi/activity.go:33-35 | No rows, no reports. |
| `Reaping.Reaper.NotePinned` | internal/mgmtapi/reaper.go:175-192 | Keeps the first time noticed, forgets it when it no longer holds. |
| `Reaping.Reaper.AdvanceWarmHold` | internal/mgmtapi/reaper.go:240-288 | Clear, start, wait or expire, and the report is forgotten only on expiry. |
| `Reaping.Reaper.SweepOne` | internal/mgmtapi/reaper.go:72-89 | One workspace: idle sessions, pin time and hold from the same report; where the record is missing or cannot be read, for whatever reason, the report is forgotten and nothing else changes. |
| `Reaping.Reaper.SweepDue` | internal/mgmtapi/reaper.go:72-89 | Evaluating a due report keeps the object the control plane of the walk, and what it sends is what the row and the report the sweep began with call for. |
| `Reaping.Reaper.SweepNext` | internal/mgmtapi/reaper.go:61-69 | One turn of the loop: a stale report is passed over, a fresh one evaluated. |
| `Reaping.Reaper.SweepLoop` | internal/mgmtapi/reaper.go:59-70 | Walking the copy of the reports in any order visits each once and ends as the walk does. |
| `Reaping.Reaper.SweepAll` | internal/mgmtapi/reaper.go:59-70 | One sweep is, from any world the object is the control plane of, BeginSweep and then one SweepWorkspace per report, in some order; each fresh report is evaluated once, no other row changes, and the stops sent are exactly those its verdicts call for. |
| `Sweeping.StepControl` | internal/mgmtapi/reaper.go:72-89 | What the event of sweeping one workspace does to the control plane depends on nothing but the control plane. |
| `Sweeping.WalkSweeps` | internal/mgmtapi/reaper.go:59-70 | Whatever the order of a walk, each workspace is judged by the row and the report the sweep began with. |
| `Sweeping.RunWalks` | internal/mgmtapi/reaper.go:59-160 | The events of a walk are the walk, and an idle or warm-hold stop is sent for a workspace if and only if its verdict calls for it. |
| `Snapshots.SnapshotNeverLost` | internal/mgmtapi/workspacecrud.go:437-529 | Over every run of any number of concurrent stops, with crashes anywhere and fresh snapshot ids: the snapshot the record names was never sent for deletion, and what a stop is about to delete is not it. |
| `Snapshots.SafeExactly` | internal/mgmtapi/state.go:227-267 | A run is safe at every point, whichever drop comes next, if and only if no write puts back an id that has been sent for deletion or is about to be. |
| `Snapshots.DoomedWriteIsUnsafe` | internal/mgmtapi/state.go:227-267 | After a write of such an id the named snapshot is lost at once or one drop later. |
| `Snapshots.RepeatedIdLosesSnapshot` | internal/mgmtapi/workspacecrud.go:494-529 | For any two ids, a run from the start in which a stop is answered with an id another is about to drop, and the named snapshot is gone. |
| `Snapshots.FreshIdsWriteClean` | internal/runner/runner.go:106-141 | If no runner answers twice with one id, every write meets that condition. |
| `Snapshots.RunKeeps` | internal/mgmtapi/workspacecrud.go:494-529 | Under that condition no step dooms the snapshot the record names. |
| `Snapshots.WorkspaceRow.constructor` | internal/mgmtapi/state.go:227-267 | No snapshot yet. |
| `Snapshots.WorkspaceRow.SetSnapshot` | internal/mgmtapi/state.go:239-267 | The row names the new snapshot; what was displaced is returned, and nothing when the same one is written twice. |
| `Snapshots.WorkspaceRow.Record` | internal/mgmtapi/workspacecrud.go:501-529 | The row is written before anything is dropped, and only what it displaced is dropped. |
| `BigEndian.GetPut` | internal/creds/creds.go:356-359 | Reading a fixed-width number back gives the number written. |
| `Decimal.AtoiItoa` | internal/creds/creds.go:297-343 | Reading a decimal numeral back gives the number, for every 64-bit integer. |
| `Creds.FieldsRoundTrip` | internal/creds/creds.go:297-343 | Every list of strings survives length-prefixed encoding, whatever colons and digits the strings hold. |
| `Creds.AttachRoundTrip` | internal/creds/creds.go:297-343 | Decoding an encoded claim gives the claim with its expiry cut to the second. |
| `Creds.WriteAttach` | internal/creds/creds.go:297-308 | The writing loop produces that encoding. |
| `Creds.ReadAttach` | internal/creds/creds.go:310-343 | The reading loop, which gives up at the eighth field, accepts and returns exactly what the decoder does, for every payload. |
| `Creds.MacFieldsInjective` | internal/creds/creds.go:352-363 | Field lists with the same canonical bytes are the same list. |
| `Creds.MacInputInjective` | internal/creds/creds.go:345-363 | The canonical input determines domain and fields, and the other way round, for domains without NUL. |
| `Creds.WriteMacInput` | internal/creds/creds.go:352-363 | The hashing loop feeds exactly the canonical input. |
| `Creds.MacInjective` | internal/creds/creds.go:345-363 | Under one key, a tag belongs to one purpose and one field list. |
| `Creds.WorkspaceTokenBinds` | internal/creds/creds.go:125-150 | A workspace credential verifies for exactly the organization, workspace and generation it was derived for. |
| `Creds.MintedVerifies` | internal/creds/creds.go:230-286 | A minted attach credential verifies to its own claims up to its second of expiry and is expired afterwards. |
| `Creds.OtherTagsRefused` | internal/creds/creds.go:254-270 | A tag made for any other purpose or payload is a bad signature. |
| `Fencing.RunKeeps` | internal/mgmtapi/api.go:289-423 | In every run each task carries the credential of its own workspace and generation, and its two loops end in order. |
| `Fencing.FencedRun` | internal/mgmtapi/api.go:289-423 | While a name is not recorded twice its tasks have different generations, none ahead of the record, and a placement in progress has one no task has; tasks whose start command outlived its placement, by a time-out or a restart, included. |
| `Fencing.AdmittedExactly` | internal/creds/creds.go:125-150 | In every reachable state a task's credential matches the record if and only if the record names its generation. |
| `Fencing.DialAnswered` | internal/mgmtapi/tunnels.go:150-154 | A dial that arrives is let in if and only if the record can be read and names the task's generation; in every other case, a failed lookup included, the task is orphaned. |
| `Fencing.OneTaskPerWorkspace` | internal/mgmtapi/tunnels.go:129-164 | At no point of a run that does not record a name twice can two tasks of that workspace both be admitted. |
| `Fencing.OnlyPlacementAdvances` | internal/store/queries.sql:209-217 | Only a placement moves a generation, by one, holding the lock and after finding no tunnel. |
| `Fencing.ReplacedIsNeverAdmitted` | internal/mgmtapi/tunnels.go:129-164 | Once the generation has passed a task's or the record is gone, no later control dial of it is admitted, restarts included, and at most one more reaches the control plane, as long as the name is not recorded again. |
| `Fencing.ReusedNameAdmitsBoth` | internal/mgmtapi/workspacecrud.go:371-408 | The condition is needed: after any run that deleted a workspace with a task of it still dialling, recording the name again and placing it up to the old generation gets the old task admitted once more, with a new one connected beside it. |
| `Fencing.ReuseBreaksFencing` | internal/mgmtapi/workspacecrud.go:371-408 | A run from the start, for any workspace and any two tasks, that ends with both connected. |
| `Fencing.RefusalEndsTask` | internal/agent/agent.go:89-112 | The first control dial of a replaced task that gets through ends its control loop. |
| `Fencing.LateStartIsRefused` | internal/mgmtapi/api.go:366-390 | A start command carried out after its generation was superseded starts a task whose first dial that arrives is refused and ends it. |
| `Fencing.EndedTaskNeverDials` | internal/supervisor/supervisor.go:238-297 | A task whose control loop ended never dials the control plane again, and once its run has returned not the relay either. |
| `Fencing.CurrentTaskOrphanedExactly` | internal/mgmtapi/tunnels.go:150-154 | A dialling task of the current generation is orphaned if and only if the record cannot be read at that moment. |
| `Fencing.CurrentTaskReconnects` | internal/agent/agent.go:83-112 | A restart costs a connected task of the current generation a reconnect and nothing more, exactly when the record can be read at the redial. |
| `Fencing.AgentRun` | internal/agent/agent.go:89-112 | The retry loop dials until the first outcome that ends it; a refusal does so only where it is fatal. |
| `Registry.RunKeeps` | internal/registry/registry.go:129-222 | Over every interleaving of registrations, hand-offs, removals, waits and cancellations: a key with waiters has no tunnel, and each waiting call is on the list, being handed a tunnel or holding one. |
| `Registry.NoLostWakeup` | internal/registry/registry.go:129-222 | A call still waiting while a tunnel is registered for its key has been sent one or is about to be. |
| `Registry.RegistrationReachesEveryWaiter` | internal/registry/registry.go:129-141 | A registration is handed to exactly the calls on the key's list, and empties it. |
| `Registry.SendNeverBlocks` | internal/registry/registry.go:137-140 | Each one-slot channel is sent to at most once and is empty when it is. |
| `Registry.CallsGetTheirOwnWorkspace` | internal/registry/registry.go:196-222 | Whatever a wait returns was registered for exactly the organization and name it asked for. |
| `Registry.PickIsNewestLive` | internal/registry/registry.go:179-194 | Picking gives the newest registration of that key not removed, and fails exactly when there is none. |
| `Registry.RemoveInPlace` | internal/registry/registry.go:230-248 | Filtering a list onto its own backing array gives the order-preserving filter and leaves the rest of the array alone. |
| `Registry.TunnelRegistry.constructor` | internal/registry/registry.go:90-96 | An empty registry. |
| `Registry.TunnelRegistry.AddWorkspace` | internal/registry/registry.go:129-141 | The locked half: the tunnel is appended and the waiters are taken off the list. |
| `Registry.TunnelRegistry.RemoveWorkspace` | internal/registry/registry.go:169-177 | The tunnel is filtered out and an emptied key is deleted. |
| `Registry.TunnelRegistry.PickWorkspace` | internal/registry/registry.go:186-194 | The newest tunnel of the key. |
| `Registry.TunnelRegistry.WaitWorkspace` | internal/registry/registry.go:198-208 | A tunnel at once, or a place at the end of the list. |
| `Registry.TunnelRegistry.GiveUp` | internal/registry/registry.go:213-220 | A cancelled call is filtered out and an emptied key is deleted. |
| `SignUp.RunKeeps` | internal/mgmtapi/principal.go:113-172 | Over every interleaving and failure of first requests an organization a request made is bound, if at all, to its own principal, and bindings only grow. |
| `SignUp.BindingIsForGood` | internal/directory/directory.go:260-286 | A binding never changes and the organization it names is never deleted by a sign-up. |
| `SignUp.SignUpConverges` | internal/mgmtapi/principal.go:134-172 | Any two requests of one principal that succeed report the same, bound organization. |
| `SignUp.LosersLeaveNothing` | internal/mgmtapi/principal.go:155-171 | The organization a successful request made is the principal's home, or is gone, or its clean-up failed; that of a request that cleaned up and then failed is gone. |
| `SignUp.LoserStaysGone` | internal/mgmtapi/principal.go:155-168 | Once a loser has cleaned up, the organization it made is absent after every continuation, however its second lookup ends, and nobody is ever at home in it. |
| `SignUp.Directory.constructor` | internal/directory/directory.go:49-55 | Empty tables. |
| `SignUp.Directory.CreateOrg` | internal/directory/directory.go:213-246 | Succeeds exactly when one of ten slugs is free and takes the first that is. |
| `SignUp.Directory.Bind` | internal/directory/directory.go:260-277 | The first binding stands, and the caller learns whether it was theirs. |
| `SignUp.Directory.DeleteOrg` | internal/directory/directory.go:279-286 | The organization goes, and with it the bindings that name it. |
| `SignUp.Directory.LookupHome` | internal/directory/directory.go:134-154 | The bound organization, if binding and organization both exist. |
| `Uids.RunKeeps` | internal/mgmtapi/sessionidentity.go:68-131 | Over every interleaving of resolves, removals and additions the counter is ahead of every uid ever given, and what was given stays given. |
| `Uids.UidNeverShared` | internal/mgmtapi/sessionidentity.go:68-131 | Whoever is ever answered with a uid, at any two points of a run and whoever left in between, is the same user; it is at least 2000 and fits 32 bits. |
| `Uids.RowsNeverShareUid` | internal/store/queries.sql:301-322 | The same for membership rows at any two points of a run. |
| `Uids.UidFixedWhileRowLives` | internal/store/queries.sql:314-322 | No step changes the uid of a membership row that survives it. |
| `Uids.NamesAndHomesDistinct` | internal/mgmtapi/sessionidentity.go:37-46 | Login names and homes are equal exactly when the uids are. |
| `Framing.FramesRoundTrip` | internal/tunnel/frame.go:26-63 | Frames of up to 1 MiB written back to back are read back as the same list, types and empty payloads included, and the stream then ends cleanly. |
| `Framing.CutStreamReadsPrefix` | internal/tunnel/frame.go:44-63 | A stream cut off anywhere yields exactly the frames that had ended by then; the end is clean if and only if nothing is left over or just the header of a frame with a payload, and unexpected otherwise. |
| `Framing.EndedExactly` | internal/tunnel/frame.go:44-63 | The number of frames that had ended: k if and only if the first k fit in the bytes there are and one more does not. |
| `Framing.WriteFrame` | internal/tunnel/frame.go:27-42 | Header and payload, or nothing when the payload is too large. |
| `Framing.Stream.constructor` | internal/tunnel/frame.go:44-63 | A reader whose bytes arrive in given pieces. |
| `Framing.Stream.ReadFull` | internal/tunnel/frame.go:46-63 | Exactly n bytes however the pieces fall, or the error that tells an empty stream from a cut one. |
| `Framing.Stream.ReadFrame` | internal/tunnel/frame.go:46-63 | The result depends on the bytes alone, never on how the stream was cut. |
| `Framing.Stream.ReadAll` | internal/tunnel/frame.go:46-63 | Reading to the end yields exactly the frames the bytes spell and the error they end with. |
| `Framing.WSConn.constructor` | internal/tunnel/wsnet.go:46-51 | Nothing being drained. |
| `Framing.WSConn.ReadMessage` | internal/tunnel/wsnet.go:67-70 | What one read of a message reader may return. |
| `Framing.WSConn.Read` | internal/tunnel/wsnet.go:53-77 | The next bytes of the binary messages, at least one if there is room, failing only when the connection closed with nothing left. |
| `Framing.WSConn.Drain` | internal/tunnel/wsnet.go:53-77 | Reads of any sizes together yield exactly the concatenated binary payloads. |
| `Detach.SpellLex` | cmd/lem/detach.go:35-71 | Tokenising loses nothing. |
| `Detach.LexSpelled` | cmd/lem/detach.go:35-71 | Complete tokens spelled out are read back as themselves, whatever follows. |
| `Detach.FirstAtIsFirst` | cmd/lem/detach.go:29-58 | The offset is that of the first matching token, and -1 exactly when there is none, for any list of spelled tokens. |
| `Detach.DetachAtExactly` | cmd/lem/detach.go:29-58 | For every input: if token k of it is the first that is the key, the result is the length of what the tokens before it spell; if none is, -1. |
| `Detach.KittyKeyIsDetach` | cmd/lem/detach.go:73-120 | CSI 93 ; mods u with any sub-parameters is the key for every modifier that holds Control. |
| `Detach.XtermKeyIsDetach` | cmd/lem/detach.go:73-120 | CSI 27 ; mods ; 93 ~ likewise. |
| `Detach.KeyIsFound` | cmd/lem/detach.go:29-58 | Each of the three encodings, after any complete input that is not the key, is found at exactly its own offset, whatever follows. |
| `Detach.ParseCSI` | cmd/lem/detach.go:60-71 | Ends just past the first final byte, or reports the sequence as incomplete. |
| `Detach.SplitParams` | cmd/lem/detach.go:88-113 | The index loop gives the numbers of the fields between semicolons. |
| `Detach.NumberFields` | cmd/lem/detach.go:91-113 | One number per field, in order. |
| `Detach.FieldNumber` | cmd/lem/detach.go:98-109 | The number before a colon, or -1. |
| `Detach.MatchSeq` | cmd/lem/detach.go:73-86 | The switch on the final byte decides whether the token is the key. |
| `Detach.ScanLoop` | cmd/lem/detach.go:35-58 | The loop with its skips finds the first matching token. |
| `Detach.DetachIndex` | cmd/lem/detach.go:29-58 | For every input, the offset of the first token that is the key, or -1. |
| `Idempotency.FormatUint` | internal/driver/driver.go:71-83 | The decimal numeral of every 64-bit number, written into 20 bytes without running off the front. |
| `Idempotency.MakeKey` | internal/driver/driver.go:61-69 | The last 64 bytes of name, dash and generation. |
| `Idempotency.KeyKeepsGeneration` | internal/driver/driver.go:61-69 | The cut always falls inside the name. |
| `Idempotency.KeysEqualExactly` | internal/driver/driver.go:61-69 | Two keys are equal if and only if the generations are and the names agree in the bytes the key has room for. |
| `Idempotency.GenerationsNeverShareKey` | internal/driver/driver.go:61-69 | Two generations never share a key, cut or not. |
| `Idempotency.UncutKeysInjective` | internal/driver/driver.go:61-69 | An uncut key determines workspace and generation. |
| `Nonces.RunKeeps` | internal/relay/relay.go:270-300 | Over every interleaving of checks, clock readings and locked uses: a nonce is remembered exactly when it has been accepted and no sweep since had a reading past its expiry. |
| `Nonces.AcceptedAgainExactly` | internal/relay/relay.go:270-284 | If i is the latest acceptance of a nonce before use j, use j is accepted if and only if some sweep after i and up to j, its own included, had a reading past the expiry. |
| `Nonces.RepeatedExactly` | internal/relay/relay.go:270-300 | Over a whole run a nonce is accepted more than once if and only if it is presented after such a sweep. |
| `Nonces.SingleUse` | internal/relay/relay.go:240-300 | No nonce is accepted twice in a run where none is presented after such a sweep. |
| `Nonces.SeenIsBounded` | internal/relay/relay.go:270-284 | After a use the map holds only nonces unexpired at its reading if and only if the one just used was. |
| `Nonces.UnderLockExactly` | internal/relay/relay.go:270-284 | Were the clock read under the lock, a nonce accepted before would be accepted again if and only if the use's own reading is past its expiry. |
| `Nonces.SingleUseWithOneReading` | internal/relay/relay.go:270-300 | Were it read under the lock and checked with the same reading, every credential would be single use. |
| `Nonces.TwoReadingsCanRepeat` | internal/relay/relay.go:287-300 | A run in which a redemption checks in time, reads the clock late, and repeats a nonce. |
| `Nonces.OlderReadingCanRepeat` | internal/relay/relay.go:270-273 | A run in which every redemption checks and sweeps with one reading, in time, and a nonce is still accepted twice, because a later reading got the lock first. |
| `Nonces.UsedNonces.constructor` | internal/relay/relay.go:266-268 | Nothing seen. |
| `Nonces.UsedNonces.UseNonce` | internal/relay/relay.go:270-284 | Sweeping the map while walking it and inserting gives the swept map with the nonce, and refuses exactly a nonce still in it. |

## Left out

- The client's terminal is the same scanner without the cap: OSC and DCS payloads, the screen contents and the alternate screen buffer are not modelled, and neither is the resize nudge that repaints the screen.
- PTYs, processes, signals and the kernel: reads, exits and process tables are inputs.
- Mutexes and goroutines: a critical section is one step. Memory aliasing of byte slices handed to queues is not modelled.
- Replay.Ring.Push: the copy of the pushed bytes is a value, so that the caller may reuse its buffer is not stated.
- Attachments.Attachment.Next: requires output or a closed queue, where the source waits for one; the wait itself is the absence of a step in `Sessions`.
- Managing.ExitAtMostOnce: is about children that were bound; a losing child's own exit is not reported by the source either, and a fork that fails is a create that never forks.
- Cascade.EveryStopIsJustified: treats row writes as succeeding and a stop command as sent whether or not the task carries it out; times are integers in nanoseconds, so the rounding of durations through floating point is not modelled.
- Cascade.ToolKeepsSessionAlive: speaks of what samples saw, not of processes that came and went between samples.
- Snapshots.SnapshotNeverLost: leaves out deleting a workspace, which drops its snapshot on purpose, and the placement that restores from the recorded id.
- Fencing.OneTaskPerWorkspace: one control-plane process, because the placement lock is held in its memory; renaming a workspace is not modelled.
- Fencing.RunKeeps: a start command starts at most one task, at any later time or never; the driver's own answer to a repeated one is the subject of `Idempotency`.
- Fencing.AgentRun: the outcomes of the connections are given; the pause between dials is not modelled.
- Creds: the MAC is a tag that carries its key and input, that is, an injective function; base64 and constant-time comparison are left out, and a credential's lifetime is an expiry chosen by the caller.
- SignUp.LosersLeaveNothing: a request that failed or crashed after creating an organization and before deleting it leaves it behind, as in the source.
- SignUp.Directory.CreateOrg: the candidate slugs are given, since the generator is random.
- Uids: each SQL statement is one step with the locks its INSERT or UPDATE takes, reading what is committed; other isolation levels are not modelled.
- Nonces: one relay process, as the set is per process; a nonce is drawn once, so it determines its credential's expiry.
- Framing.WSConn.Read: errors other than the connection closing are left out.
- The preflight store (the same rendezvous as the registry), runner tunnels and their round robin, admission by headroom, user records, the HTTP, OIDC and SQL layers, the container drivers, the console and the deployment: they would add easy members or restate libraries.

# Verified model of the host's stateful cores

The host of this repository runs a coding agent for a developer who watches and steers it
from a phone. This project models the parts of the host that keep state across many
callers, or turn one text into another and back, and proves what they promise. Go strings
are byte sequences here (one `char` is one byte). Objects whose methods update fields are
classes; each critical section is one method, proved to compute a function of the state
before it; the laws are then proved about runs of those functions, for every interleaving
the locks allow.

| area | files |
|---|---|
| keep-awake control plane: leases, timers, policy, battery, audit, result caches | `KeepAwakeState` (values and critical sections), `KeepAwakeControlPlane` (the object), `FifoCache`, `KeepAwakeTable`, `KeepAwakeLaws`, `KeepAwakeSafety`, `KeepAwakePolicy`, `KeepAwakeAudit`, `KeepAwakeExact`, `KeepAwakeSwitch`, `KeepAwakeIds`, `KeepAwakeFingerprint`, `KeepAwakeCollision`, `KeepAwakeReplay` |
| inhibitor manager below it | `KeepAwakeManager` (the object), `KeepAwakeInhibitor` (interleavings), `KeepAwakeSystem` (both together) |
| JSONL tail reader, event parser, pipeline | `TailReader`, `EventParser`, `ClaudePipeline`, `TimelineLaws`, `TimelineItems`, `TailLaws`, `PipelineLaws` |
| Gemini timeline | `GeminiParser`, `GeminiItems`, `GeminiLaws`, `GeminiIds` |
| unified diffs: parser, patch builder, synthetic diffs | `DiffParser`, `PatchBuilder`, `SyntheticDiff`, `SymlinkDiff`, `DiffSections`, `Decimal` |
| terminal history | `RingBuffer`, `Utf8`, `Utf8Laws`, `TerminalHistory` |
| session output gate | `OutputGate` |
| approval queue | `AllowRules`, `ApprovalQueue`, `ApprovalLaws` |
| pairing codes | `Pairing`, `PairingLaws` |
| file watching | `FileWatch`, `StringOrder` |
| shared text definitions | `Text` |

A clock is an input, and so are the answers of the file system, the power source, the audit
store and the operating system's inhibitor, and the order in which Go visits a map. Runs are
sequences of critical sections with such inputs; the clock of a run does not go back.

Where the code does not meet what one would expect of it, the exact condition is proved and
a concrete input or run shows the failure:

- Remote control switched off does not imply an empty lease table when the bootstrap policy
  seed, or the rollback of a policy change whose audit failed, switches it off behind a lease
  (`StepRemoteOff`, `SeedStrandsLease`, `RollbackStrandsLease`). The seed is a matter of the
  exported method only: the host seeds before it installs the policy handler and starts the
  server (host/cmd/host.go:474, :600, :669).
- The status revision does not move when a seed brings another policy, or when the rollback
  of an overtaken policy change does, so clients see two policies under one revision
  (`StepRevision`, `RollbackIsSilent`); with policy changes one at a time only the seed is
  left (`OnlySeedIsSilent`, `DisciplinedViews`).
- Request fingerprints join the fields with a NUL and fields may hold NULs, so a request can
  be answered with the result of another one (`UnambiguousIsIdentified` and
  `AmbiguousCollides`, `TwoDisablesCollide`).
- A closed inhibitor manager leaves OFF again when an acquisition that `Close` overtook fails
  (`ClosedStaysOff`, `OffForGood` and `InFlightMayDegrade`, `ClosedYetDegraded`), although the comment at manager.go:207 says that an
  explicit close settles at OFF.
- A JSONL file truncated and regrown past the read offset between two polls is not noticed
  (`CycleReachesFile`, `RegrownFileIsMissed`).
- Rolling back a seeded prompt that lies before a tool call breaks the tool index
  (`RollbackIndex`, `RollbackCanBreakTheIndex`).
- Of several texts in one user event only the last one shows, since they share an id
  (`UserTextsShow`, `FirstTextIsLost`).
- A request id that is the number of a user message gives two Gemini items one id, and
  rolling the prompt back can remove that message instead (`SeededIdsDistinct`,
  `RollbackRestores`, `NumberedRequestCollides`).
- A symlink target with a newline is not read back from its synthetic diff, alone or in a
  list (`SymlinkExact`, `ListExact`).
- A staged diff that does not start with a header the parser knows, as git prints it quoted
  for some names, runs into the unstaged diff before it (`RunGitDiff`, `QuotedHeaderMixes`).
- A rune that the terminal hands over in two chunks is replaced by replacement characters
  (`ChunksAreTheStream`, `EuroInTwo`).
- Overlapping activations of one output gate can reorder output, exactly when a chunk is
  forwarded ahead of a different one (`StepOrdered`, `OverlapReorders`). The session handlers
  activate each gate once (handlers_sessions.go:137, session_api.go:229), which suffices
  (`OneActivateSuffices`).
- A repeated approval request id can leave a waiting call that nobody can decide
  (`StepDecidable`, `ReusedIdOrphans`).
- After a scan error a file-watch client may keep a deleted path for good (`TickExact`,
  `StaleForever`).
- The drop check inside the output gate's drain loop and the two "cannot happen" branches of
  the lease id collision and the full response channel are indeed never taken
  (`DropNeverSeenInLoop`, `NoCollision`, `AlwaysInv` of `ApprovalLaws`).

## Model

| member | source | states |
|---|---|---|
| KeepAwakeControlPlane.ControlPlane.HandleEnable | host/internal/server/handlers_keepawake.go:726-921 | new state and reply of an enable: validation, idempotency, authorization, power, id, audit, lease and timer, revision, runtime, stored result |
| KeepAwakeControlPlane.ControlPlane.HandleDisableOrExtend | host/internal/server/handlers_keepawake.go:931-1163 | new state and reply of a disable or extend, with every refusal |
| KeepAwakeControlPlane.ControlPlane.PruneExpired | host/internal/server/handlers_keepawake.go:415-431 | the table after the prune loop, and that its flag says exactly whether a lease went |
| KeepAwakeControlPlane.ControlPlane.ScheduleTimer | host/internal/server/handlers_keepawake.go:433-451 | a timer armed at the earlier of expiry and grace deadline, or an expiry run started at once |
| KeepAwakeControlPlane.ControlPlane.TimerRun | host/internal/server/handlers_keepawake.go:453-468 | prune, battery check, one revision, runtime told |
| KeepAwakeControlPlane.ControlPlane.Summary | host/internal/server/server_setters.go:64-86 | the same reconciliation for a status snapshot |
| KeepAwakeControlPlane.ControlPlane.CheckBatteryThreshold | host/internal/server/handlers_keepawake.go:506-566 | all leases audited before the first is removed; a failed write leaves the table alone |
| KeepAwakeControlPlane.ControlPlane.ValidateAuthorization | host/internal/server/handlers_keepawake.go:568-592 | which requests are denied, with which code, and who is an administrator |
| KeepAwakeControlPlane.ControlPlane.CheckOrBeginIdempotency | host/internal/server/handlers_keepawake.go:594-610 | replay, mismatch, wait or a new reservation |
| KeepAwakeControlPlane.ControlPlane.IdempotencyComplete | host/internal/server/handlers_keepawake.go:612-629 | result stored with eviction of the oldest, reservation discharged |
| KeepAwakeControlPlane.ControlPlane.PolicyIdempotencyComplete | host/internal/server/handlers_keepawake.go:656-669 | the same for policy responses |
| KeepAwakeControlPlane.ControlPlane.SetRuntimeState | host/internal/server/handlers_keepawake.go:394-413 | what the runtime is asked and what is remembered with and without one |
| KeepAwakeControlPlane.ControlPlane.HandleStatus | host/internal/server/handlers_keepawake.go:1165-1201 | a status query for another session is refused and changes nothing; any other prunes and reconciles |
| KeepAwakeControlPlane.ControlPlane.OnClientConnected | host/internal/server/handlers_keepawake.go:1203-1230 | a reconnect ends the grace of the device's leases and rearms their timers |
| KeepAwakeControlPlane.ControlPlane.OnClientDisconnected | host/internal/server/handlers_keepawake.go:1232-1267 | the last disconnect of a device starts the grace of its leases |
| KeepAwakeControlPlane.ControlPlane.RevokeLeasesForDevice | host/internal/server/handlers_keepawake.go:1269-1308 | revokes a device's leases one audited lease at a time |
| KeepAwakeControlPlane.ControlPlane.StopKeepAwake | host/internal/server/handlers_keepawake.go:1310-1317 | shutdown stops and forgets all timers |
| KeepAwakeControlPlane.ControlPlane.SetKeepAwakePolicy | host/internal/server/server_setters.go:104-165 | seed, change, revocation of all leases, fail-closed on an audit failure |
| KeepAwakeControlPlane.ControlPlane.ForceFailClosed | host/internal/server/server_setters.go:170-188 | the fail-closed state |
| KeepAwakeControlPlane.ControlPlane.PolicyHandlerBegin | host/internal/server/server.go:471-515 | replay, conflict, no-op or reservation of a policy mutation |
| KeepAwakeControlPlane.ControlPlane.PolicyHandlerCancel | host/internal/server/server.go:518-540 | a failed persist discharges the reservation only |
| KeepAwakeControlPlane.ControlPlane.PolicyHandlerApply | host/internal/server/server.go:543-639 | apply, audit, rollback, revocation, fail-closed, revision, stored response |
| KeepAwakeControlPlane.ControlPlane.SetDisconnectGrace | host/internal/server/server_setters.go:240-248 | accepted exactly from 0 to 300000 ms |
| KeepAwakeTable.NoCollision | host/internal/server/handlers_keepawake.go:840-850 | a generated id differs from those of all leases in the table, and its key is not in the table, whatever bytes session and device hold |
| KeepAwakeIds.StepSeq | host/internal/server/handlers_keepawake.go:840-841 | the id counter never falls, and every grant takes the id of its next value |
| KeepAwakeIds.IdsNeverReused | host/internal/server/handlers_keepawake.go:840-841 | two grants of one run never share a lease id, also when the first lease is long gone |
| KeepAwakeTable.PruneLeavesNoneDue | host/internal/server/handlers_keepawake.go:415-431 | a prune takes exactly the leases whose time, or whose grace while disconnected, is over, and leaves the others as they are |
| KeepAwakeTable.DueIsOver | host/internal/server/handlers_keepawake.go:433-451 | the deadline a timer is armed at is the moment the lease is over |
| KeepAwakeLaws.StepSound | host/internal/server/handlers_keepawake.go:433-566 | every critical section keeps keys, unique ids, timers within leases and armed at exactly their deadline, expiry within 8 h, and an empty table while the battery flag is set |
| KeepAwakeLaws.StepIdem | host/internal/server/handlers_keepawake.go:594-673 | both caches keep entries and order duplicate-free, in agreement and within their caps; every reservation is discharged, on every path |
| KeepAwakeLaws.AlwaysInv | host/internal/server/handlers_keepawake.go:394-673 | both, in every reachable state |
| KeepAwakeLaws.StepFollows | host/internal/server/handlers_keepawake.go:394-468 | a step keeps "the last value given to the runtime is: some lease exists" if and only if it does not wire the runtime late |
| KeepAwakeLaws.RuntimeAlwaysFollows | host/internal/server/handlers_keepawake.go:394-468 | in every reachable state, with the lock free |
| KeepAwakeSafety.AlwaysWatched | host/internal/server/handlers_keepawake.go:433-451 | until shutdown every lease has a timer armed at its deadline, or is due with an expiry run on its way |
| KeepAwakeSafety.NoneDueAfter | host/internal/server/handlers_keepawake.go:453-468 | once an expiry run, status query or summary executed, no due lease is left |
| KeepAwakeSafety.OthersInherit | host/internal/server/handlers_keepawake.go:1203-1308 | nothing but a lease mutation adds a lease or changes owner or expiry |
| KeepAwakeSafety.ExpiryFixed | host/internal/server/handlers_keepawake.go:876-884 | along any run without a grant of it a lease keeps its expiry |
| KeepAwakeSafety.EightHours | host/internal/server/handlers_keepawake.go:24-29 | no lease outlives its last grant by more than eight hours |
| KeepAwakeSafety.StoppedIsQuiet | host/internal/server/handlers_keepawake.go:1310-1317 | after a shutdown the leases are as they were and no timer can fire |
| KeepAwakePolicy.MutationAuthority | host/internal/server/handlers_keepawake.go:568-592 | a mutation touches the table only when authorized, adds leases only for its requester, and changes a lease only for its owner or an administrator |
| KeepAwakePolicy.StepRemoteOff | host/internal/server/server_setters.go:104-165 | one step keeps "remote off implies no lease" if and only if it does not switch the policy off behind a lease |
| KeepAwakePolicy.RemoteOffAlways | host/internal/server/server.go:515-591 | in every run with policy mutations one at a time and the seed before the first lease |
| KeepAwakePolicy.SeedStrandsLease | host/internal/server/server_setters.go:106-113 | a run from the start in which the seed leaves a lease behind |
| KeepAwakePolicy.RollbackStrandsLease | host/internal/server/server.go:560-571 | a run from the start in which overlapping policy changes leave a lease behind |
| KeepAwakePolicy.PolicyAuditFailureCloses | host/internal/server/server_setters.go:145-156 | a policy change that cannot be audited ends fail-closed, whatever the revocations did |
| KeepAwakePolicy.ClosedForGood | host/internal/server/server_setters.go:167-188 | after fail-closed no later step ever adds a lease, until the flag is cleared |
| KeepAwakeAudit.StepRevision | host/internal/server/server_setters.go:104-165 | a step moves the revision by at most one, and by one whenever a lease or the policy changes, if and only if it is neither a seed with another policy nor the rollback of an overtaken policy change |
| KeepAwakeAudit.RevisionIdentifiesView | host/internal/server/handlers_keepawake.go:88-90 | the revision never goes back, and without those two steps equal revisions mean equal leases and policy |
| KeepAwakeAudit.OnlySeedIsSilent | host/internal/server/server.go:560-571 | with policy mutations one at a time no rollback changes the policy unseen, whatever audits fail |
| KeepAwakeAudit.DisciplinedViews | host/internal/server/handlers_keepawake.go:88-90 | so from the seed on, equal revisions mean equal leases and policy |
| KeepAwakeAudit.RollbackIsSilent | host/internal/server/server.go:560-571 | a run from the start in which a rollback switches remote control off under an unchanged revision |
| KeepAwakeAudit.OncePerEpoch | host/internal/server/handlers_keepawake.go:503-566 | after a battery shutdown there is no lease and no second shutdown until an enable starts a new epoch |
| KeepAwakeAudit.LeavesAccounted | host/internal/server/server_setters.go:119-188 | a lease leaves by expiry or grace, by a fail-closed transition of a step in which a record cannot be written, or after a removal record with its id |
| KeepAwakeExact.RequestExactly | host/internal/server/handlers_keepawake.go:731-800 | a request under a new key is refused when an id is blank or the duration is not within 30 seconds and 8 hours, and otherwise carried out once, with its result stored |
| KeepAwakeExact.EnableExactly | host/internal/server/handlers_keepawake.go:818-921 | an enable grants if and only if authorized, powered and audited; a grant is exactly one lease with its expiry, timer, record and revision, the runtime told and its answer reported; a refusal has its code and changes nothing |
| KeepAwakePolicy.PowerExactly | host/internal/server/handlers_keepawake.go:472-501 | what power allows: on mains always, on battery if allowed and above a positive limit, unknown if allowed and without a limit |
| KeepAwakeExact.GrantIsNotDue | host/internal/server/handlers_keepawake.go:472-526 | a lease just granted or extended is never due for a battery shutdown under the same reading |
| KeepAwakeExact.ShutdownMeetsGrants | host/internal/server/handlers_keepawake.go:472-526 | on battery with a known charge and a limit a shutdown is due exactly where a grant is not allowed |
| KeepAwakeExact.FindAnyOrder | host/internal/server/handlers_keepawake.go:1066-1076 | the lookup by session and lease id does not depend on map order |
| KeepAwakeExact.MutateExactly | host/internal/server/handlers_keepawake.go:1040-1163 | which lease a disable or extend goes through to, in any map order; it changes exactly that lease, its timer, one revision and one record and reports the runtime; without such a lease it says why and changes nothing |
| KeepAwakeExact.ConnectedExactly | host/internal/server/handlers_keepawake.go:1210-1220 | exactly the device's disconnected leases leave their grace |
| KeepAwakeExact.DisconnectedExactly | host/internal/server/handlers_keepawake.go:1248-1257 | exactly the device's connected leases start their grace, with the configured length |
| KeepAwakeExact.OthersMoveNothing | host/internal/server/handlers_keepawake.go:1203-1275 | a client without a device id changes nothing, nor does one that goes while another client of its device stays |
| KeepAwakeExact.RevokedExactly | host/internal/server/handlers_keepawake.go:1276-1298 | exactly the device's leases whose removal could be audited go |
| KeepAwakeExact.SwitchOffExactly | host/internal/server/server_setters.go:119-165 | switching remote off empties the table, and ends fail-closed if and only if some record cannot be written |
| KeepAwakeExact.ShutdownIsAtomic | host/internal/server/handlers_keepawake.go:506-565 | a battery shutdown happens if and only if it is due and all records can be written; it removes all leases or none |
| KeepAwakeExact.GraceExactly | host/internal/server/server_setters.go:240-248 | a grace is accepted from 0 to 300000 whole milliseconds and is 45 seconds before |
| KeepAwakeSwitch.BeginExactly | host/internal/server/server.go:471-515 | a mutation begins in conflict with an open one, answered at once when nothing changes, or reserved with the flag and the policy of that moment |
| KeepAwakeSwitch.ApplyExactly | host/internal/server/server.go:543-639 | for every state and ticket: without its record the mutation is rolled back and nothing else changes but the reservation; as a switch-off with an unwritable revocation it ends fail-closed; otherwise the policy gets exactly the requested flag, one record, one revision and a stored response, and no lease is left when switched off |
| KeepAwakeSwitch.SetExactly | host/internal/server/server_setters.go:104-165 | the first call seeds only; every later one puts the policy in force, or ends fail-closed, and exactly when |
| KeepAwakeSwitch.SwitchedOffStays | host/internal/server/server.go:543-639 | after an applied switch-off no lease is held and every enable is refused, over every run until another policy event |
| KeepAwakeSwitch.RequestedIsApplied | host/internal/server/server.go:500-606 | a mutation begun for a flag and applied later leaves the policy with that flag, whatever happened in between |
| KeepAwakeReplay.ReplayIsInert | host/internal/server/handlers_keepawake.go:594-602 | under a stored key the same hashed bytes get the stored result, other bytes a conflict; neither changes anything |
| KeepAwakeReplay.RetryIsReplay | host/internal/server/handlers_keepawake.go:594-629 | over any run with at most 255 other mutations a retry changes nothing; it gets the first result if and only if its hashed bytes are the same |
| KeepAwakeReplay.KeysExactly | host/internal/server/handlers_keepawake.go:788-1009 | requests share a key exactly when device, operation and request id are the same |
| KeepAwakeReplay.RetryByFields | host/internal/server/handlers_keepawake.go:594-629 | when the first request is not ambiguous: if and only if it asks for the same thing |
| KeepAwakeReplay.RetryOfAnother | host/internal/server/handlers_keepawake.go:594-629 | when it is ambiguous, some well-formed request for something else gets its result |
| KeepAwakeReplay.TwoDisablesCollide | host/internal/server/handlers_keepawake.go:1008-1016 | two disables for different leases, the second answered with the result of the first |
| KeepAwakeReplay.AnsweredIsReplayed | host/internal/server/handlers_keepawake.go:641-669 | the same for the policy cache, over any run with at most 63 other responses |
| KeepAwakeReplay.PolicyRetryIsReplay | host/internal/server/server.go:471-639 | a policy mutation, from its reservation over its application to a retry: replayed to the same request, a conflict for any other |
| KeepAwakeReplay.PolicyFingerprintReads | host/internal/server/server.go:469 | the hashed bytes of a policy mutation determine it |
| KeepAwakeFingerprint.ComputeFingerprint | host/internal/server/server_types.go:357-366 | the loop joins the fields with a NUL |
| KeepAwakeFingerprint.NulFreeFieldsRead | host/internal/server/server_types.go:357-366 | fields without a NUL are read back from the joined bytes |
| KeepAwakeFingerprint.NulMovesBytes | host/internal/server/server_types.go:357-366 | every list with a NUL in some field has another list with the same bytes |
| KeepAwakeCollision.UnambiguousIsIdentified | host/internal/server/handlers_keepawake.go:787-790 | a request whose NULs stand nowhere a neighbouring field could end shares its fingerprint with no other request |
| KeepAwakeCollision.AmbiguousCollides | host/internal/server/handlers_keepawake.go:1008-1016 | every other request shares it with a well-formed request under the same key |
| FifoCache.StoreAgrees | host/internal/server/handlers_keepawake.go:612-622 | storing keeps entries and order in agreement, duplicate-free and within the cap |
| FifoCache.StoreOther | host/internal/server/handlers_keepawake.go:612-622 | a store costs another entry at most one place and never its value |
| KeepAwakeManager.Manager.EnableEnter | host/internal/keepawake/manager.go:85-112 | enable up to its first unlock, with the fast path and the lost handle |
| KeepAwakeManager.Manager.EnableFailed | host/internal/keepawake/manager.go:114-122 | a failed acquisition |
| KeepAwakeManager.Manager.EnableCommit | host/internal/keepawake/manager.go:124-143 | a handle is kept exactly while still wanted and not closed |
| KeepAwakeManager.Manager.EnableRejected | host/internal/keepawake/manager.go:127-132 | after the release of an unwanted handle |
| KeepAwakeManager.Manager.DisableEnter | host/internal/keepawake/manager.go:146-163 | disable up to its unlock, and the handle it takes |
| KeepAwakeManager.Manager.CloseEnter | host/internal/keepawake/manager.go:57-74 | close up to its unlock, and the handle it takes |
| KeepAwakeManager.Manager.RecordLifecycleErrorLocked | host/internal/keepawake/manager.go:206-213 | a release error is noted without leaving OFF |
| KeepAwakeManager.Manager.WatchHandle | host/internal/keepawake/manager.go:176-196 | a watcher after its handle's exit |
| KeepAwakeInhibitor.AlwaysInv | host/internal/keepawake/manager.go:57-196 | for every interleaving: each acquired handle is in exactly one place (in flight, held, being released, released once, dropped after exit), ON iff a handle is held, ON implies wanted and open, the held handle has its watcher |
| KeepAwakeInhibitor.EnableExactly | host/internal/keepawake/manager.go:85-112 | an enable asks for an inhibitor exactly when none that still runs is held |
| KeepAwakeInhibitor.DisableExactly | host/internal/keepawake/manager.go:146-163 | a disable of an open manager lets go of the handle for release and is off |
| KeepAwakeInhibitor.AcquisitionExactly | host/internal/keepawake/manager.go:114-143 | how an acquisition ends: degraded with its reason, on with its handle while still wanted, given back and off otherwise |
| KeepAwakeInhibitor.LossIsReported | host/internal/keepawake/manager.go:176-196 | the exit of the held inhibitor degrades the manager for lost integrity, with its error |
| KeepAwakeInhibitor.RevisionsTell | host/internal/keepawake/manager.go:198-213 | in every step from a reachable state the status revision never falls, and an unchanged one means an unchanged status |
| KeepAwakeInhibitor.StaleWatcherIsInert | host/internal/keepawake/manager.go:182-187 | a watcher changes the manager exactly when its handle is the held one |
| KeepAwakeInhibitor.ReleasedOnce | host/internal/keepawake/manager.go:127-165 | no handle is released twice, or while held, or after being dropped |
| KeepAwakeInhibitor.NothingLeaks | host/internal/keepawake/manager.go:57-83 | once Close and the last call are through, every handle was released once or had exited |
| KeepAwakeInhibitor.ClosedStaysOff | host/internal/keepawake/manager.go:115-122 | a closed manager stays OFF exactly until an overtaken acquisition reports failure |
| KeepAwakeInhibitor.OffForGood | host/internal/keepawake/manager.go:57-163 | closed, off and with no acquisition in flight, a manager stays off over every run |
| KeepAwakeInhibitor.InFlightMayDegrade | host/internal/keepawake/manager.go:115-122 | with one in flight there is always a run in which it leaves off |
| KeepAwakeInhibitor.ClosedYetDegraded | host/internal/keepawake/manager.go:115-122 | such a run from the start |
| KeepAwakeSystem.HeldOnlyForLeases | host/internal/server/handlers_keepawake.go:394-468 | control plane over manager: an inhibitor is wanted exactly while a lease exists (until closed), held only then, and reported ON exactly while held |
| TailReader.JSONLTailReader.ReadFromBeginning | host/internal/server/jsonl_tail_reader.go:127-146 | state after a full replay, also when open, stat or read fails |
| TailReader.JSONLTailReader.Poll | host/internal/server/jsonl_tail_reader.go:150-204 | state and callbacks of one poll: rotation, truncation, nothing new, growth, failures |
| TailReader.JSONLTailReader.ReadNewContent | host/internal/server/jsonl_tail_reader.go:207-222 | offset, leftover and delivered lines of one read |
| TailReader.JSONLTailReader.DeliverLines | host/internal/server/jsonl_tail_reader.go:226-254 | delivers the valid complete lines and keeps the unterminated tail |
| TailLaws.AlwaysTracks | host/internal/server/jsonl_tail_reader.go:127-254 | whatever the file system answers: offset, leftover and lines since the last reset are those of one read of the consumed bytes |
| TailLaws.CycleReachesFile | host/internal/server/jsonl_tail_reader.go:164-203 | the consumed bytes are the whole current file if and only if the change was detected or the file only grew |
| TailLaws.OtherFileStartsOver | host/internal/server/jsonl_tail_reader.go:164-176 | over every run: a cycle that opens another file than the one its bytes came from starts over, so two files are never mixed |
| TailLaws.ShorterFileStartsOver | host/internal/server/jsonl_tail_reader.go:177-184 | and so does one that finds the file shorter than what was consumed |
| TailLaws.KeptMembers | host/internal/server/jsonl_tail_reader.go:226-254 | a line reaches the parser exactly when it is not blank and is valid |
| TailLaws.RegrownFileIsMissed | host/internal/server/jsonl_tail_reader.go:177-194 | a run of two cycles that delivers the end of the rewritten line instead of the line |
| TailLaws.IncrementalIsOneShot | host/internal/server/claude_pipeline.go:73-145 | after every cycle of every run the timeline last sent is the one-shot parse of the consumed valid lines (up to wall-clock times when timestamps are missing) |
| TailLaws.CurrentFileIsShown | host/internal/server/claude_pipeline.go:73-145 | after a cycle that reads a rotated, visibly truncated or grown file, clients have the one-shot parse of that file |
| ClaudePipeline.Pipeline.OnLine | host/internal/server/claude_pipeline.go:75-99 | a line is parsed always and published only when live |
| ClaudePipeline.Pipeline.OnReset | host/internal/server/claude_pipeline.go:100-110 | a reset empties the parser and suspends publishing |
| ClaudePipeline.Pipeline.OnReadComplete | host/internal/server/claude_pipeline.go:111-144 | the end of a replay publishes reset notice, timeline and snapshot |
| PipelineLaws.FirstCycleSends | host/internal/server/claude_pipeline.go:73-145 | the first cycle sends one timeline and one snapshot |
| PipelineLaws.CycleSends | host/internal/server/claude_pipeline.go:73-145 | every later cycle of every run: three things when it starts over, however many lines are replayed, and otherwise one timeline for each line |
| PipelineLaws.SeedIsSent | host/internal/server/claude_pipeline.go:234-247 | seeding a prompt sends the timeline with its bubble at the end |
| PipelineLaws.RollbackIsSent | host/internal/server/claude_pipeline.go:250-263 | rolling it back sends the timeline without the first item of that id |
| EventParser.JsonlEventParser.ParseEvent | host/internal/server/jsonl_event_parser.go:80-103 | the new parser state of one line |
| EventParser.JsonlEventParser.ConsumeSeedOrFreshId | host/internal/server/jsonl_event_parser.go:225-233 | the echo of the pending prompt takes its id, once |
| EventParser.JsonlEventParser.AddOrReplaceItem | host/internal/server/jsonl_event_parser.go:162-170 | replaces the first item with that id, or appends |
| EventParser.JsonlEventParser.ProcessUserEvent | host/internal/server/jsonl_event_parser.go:239-285 | user texts and tool results, block by block |
| EventParser.JsonlEventParser.ProcessAssistantEvent | host/internal/server/jsonl_event_parser.go:288-334 | assistant blocks and the tool index |
| EventParser.JsonlEventParser.ProcessToolResult | host/internal/server/jsonl_event_parser.go:337-368 | a result reaches the indexed call, or becomes an item of its own |
| EventParser.JsonlEventParser.SeedPromptWithItem | host/internal/server/jsonl_event_parser.go:129-145 | seed and bubble |
| EventParser.JsonlEventParser.RollbackSeedItem | host/internal/server/jsonl_event_parser.go:149-158 | removes the first item with the seed's id |
| TimelineItems.AssistantItems | host/internal/server/jsonl_event_parser.go:285-345 | for every assistant event and state: one item for each text, thinking and tool_use block, in order and none for others, each field read off its block, at the event's time |
| TimelineItems.CallIndexed | host/internal/server/jsonl_event_parser.go:310-330 | the last call of a tool in an event can be found by its result |
| TimelineItems.PlainItem | host/internal/server/jsonl_event_parser.go:228-255 | a plain user message shows one item, under the pending request when it is its echo |
| TimelineItems.UserTextsShow | host/internal/server/jsonl_event_parser.go:257-275 | of the texts of one user event the last one shows |
| TimelineItems.FirstTextIsLost | host/internal/server/jsonl_event_parser.go:257-275 | two texts in one event, of which one shows |
| TimelineItems.EventCompletes | host/internal/server/jsonl_event_parser.go:347-368 | a result in a user event completes its call |
| TimelineItems.EventShowsUnknown | host/internal/server/jsonl_event_parser.go:370-385 | a result of an unknown call shows as a call of its own |
| TimelineItems.OtherRoles | host/internal/server/jsonl_event_parser.go:95-101 | events of other roles show nothing |
| TimelineItems.ItemStays | host/internal/server/jsonl_event_parser.go:162-170 | an item stays as it is, where it is, over every run that does not write its id |
| TimelineItems.RepliesStay | host/internal/server/jsonl_event_parser.go:285-345 | so replies and thoughts stay, whatever events and prompts follow |
| TimelineLaws.EventKeepsIds | host/internal/server/jsonl_event_parser.go:162-170 | an event keeps the old id sequence as a prefix of the new one |
| TimelineLaws.IndexAlwaysAgrees | host/internal/server/jsonl_event_parser.go:288-368 | over every run every index entry points at the last item with that tool's id |
| TimelineLaws.RollbackIndex | host/internal/server/jsonl_event_parser.go:149-158 | a rollback keeps the agreement if and only if the removed item lies behind every indexed one |
| TimelineLaws.RollbackCanBreakTheIndex | host/internal/server/jsonl_event_parser.go:149-158 | a run that breaks it |
| TimelineLaws.ResultReachesItsCall | host/internal/server/jsonl_event_parser.go:288-368 | whatever happened since a tool call, its result completes exactly that item, which keeps name and input |
| TimelineLaws.SeedThenEcho | host/internal/server/jsonl_event_parser.go:124-170 | a prompt seeded under a fresh id, any unrelated events, then its echo: exactly one item, where it was seeded |
| TimelineLaws.SeedThenRollback | host/internal/server/jsonl_event_parser.go:147-158 | seeding and rolling back under a fresh id restores the timeline |
| GeminiParser.GeminiEventParser.RebuildTimeline | host/internal/server/gemini_event_parser.go:205-265 | the timeline is a function of the messages and the pending seed, which stays; so a second rebuild changes nothing |
| GeminiParser.GeminiEventParser.ProcessUserMessage | host/internal/server/gemini_event_parser.go:324-353 | a user message, with the five-second seed match |
| GeminiParser.GeminiEventParser.ProcessGeminiMessage | host/internal/server/gemini_event_parser.go:357-415 | thoughts, then tool calls, then text |
| GeminiParser.GeminiEventParser.RollbackSeedItem | host/internal/server/gemini_event_parser.go:297-306 | removes the first item with the seed's id |
| GeminiItems.RebuildItems | host/internal/server/gemini_event_parser.go:205-452 | for all messages: the timeline is what each message shows, in order; thoughts, calls with their status, texts, notices and times field by field |
| GeminiItems.PromptShows | host/internal/server/gemini_event_parser.go:234-341 | with a pending prompt: the first echo, at most five seconds older, takes its ids; without an echo the trimmed prompt stands before the first newer item |
| GeminiLaws.ConsumedExactly | host/internal/server/gemini_event_parser.go:333-341 | the seed is consumed if and only if some user message echoes it |
| GeminiLaws.SeedShownOnce | host/internal/server/gemini_event_parser.go:234-262 | while a seed is pending exactly one item carries its request id, if and only if that id is not empty (or the timeline has one item) |
| GeminiLaws.SeedlessOtherwise | host/internal/server/gemini_event_parser.go:234-262 | taking the seed's item out, or giving the echo its plain ids back, is the rebuild without a seed |
| GeminiLaws.SeedKeepsOrder | host/internal/server/gemini_event_parser.go:250-261 | the timeline is timestamp-sorted with the seed if and only if it is without |
| GeminiIds.SeedlessIdsDistinct | host/internal/server/gemini_event_parser.go:330-452 | without a seed no two items of a rebuild share an id, whatever the messages hold |
| GeminiIds.SeededIdsDistinct | host/internal/server/gemini_event_parser.go:333-341 | with a seed they stay distinct if and only if no user message but its echo is numbered like the request id |
| GeminiIds.RollbackRestores | host/internal/server/gemini_event_parser.go:297-306 | rolling back a prompt gives the seedless timeline if and only if the file has not echoed it and no user message numbered like the request id stands before it |
| GeminiIds.NumberedRequestCollides | host/internal/server/gemini_event_parser.go:297-306 | a message and a request id for which both fail |
| DiffParser.Parse | host/internal/diff/parser.go:37-117 | the line loop computes the chunks of the text |
| DiffParser.ParseHomomorphism | host/internal/diff/parser.go:50-66 | parsing is a homomorphism at file-header boundaries |
| DiffParser.ParsedChunks | host/internal/diff/parser.go:29-117 | every chunk of every text starts with its own header, holds no other header and no dropped line, and has a name the regex can return |
| DiffParser.ChunkExactly | host/internal/diff/parser.go:50-117 | for each chunk header of each text: its chunk comes behind the earlier ones, belongs to the last file header, and holds the header and the content lines up to the next header |
| DiffParser.ChunkCount | host/internal/diff/parser.go:50-117 | there are as many chunks as chunk headers |
| DiffParser.FileHeaderExact | host/internal/diff/parser.go:31-33 | the greedy header regex returns exactly the names without an inner separator |
| DiffParser.AggregateByFile | host/internal/diff/parser.go:121-127 | each file's chunks, in order, and no other key |
| DiffParser.ConcatChunkContent | host/internal/diff/parser.go:131-137 | contents joined by one newline |
| DiffParser.FoldChunks | host/internal/diff/parser.go:37-117 | the lines of consecutive chunks of a file reopen exactly those chunks |
| PatchBuilder.BuildPatch | host/internal/actions/patch.go:32-56 | head lines, content, and a final newline when missing |
| PatchBuilder.HeadNames | host/internal/actions/patch.go:32-50 | the names and the mode that git reads from the head |
| PatchBuilder.PatchRoundTrip | host/internal/actions/patch.go:32-56 | for every diff text and file: parsing the patch of the file's chunks gives back file, ranges and contents, the last one newline-terminated |
| PatchBuilder.EmptyPatch | host/internal/actions/patch.go:32-56 | a patch without content parses to no chunk |
| SyntheticDiff.GenerateSyntheticDiff | host/internal/diff/poller.go:305-411 | the printed lines for text, empty, binary, symlink and skipped files |
| SyntheticDiff.ShownExactly | host/internal/diff/poller.go:349-371 | a file shows as text when no NUL is among its first 8000 bytes |
| SyntheticDiff.PreambleReads | host/internal/diff/poller.go:340-385 | the names and the mode that git reads from a synthetic diff |
| SyntheticDiff.WriteAdded | host/internal/diff/poller.go:397-403 | one added line per content line, none for the empty piece after a final newline |
| SyntheticDiff.GenerateSymlinkDiff | host/internal/diff/poller.go:416-441 | the printed lines for a symlink |
| SyntheticDiff.GetUntrackedDiff | host/internal/diff/poller.go:259-275 | the concatenation over all files |
| SyntheticDiff.LineCountExact | host/internal/diff/poller.go:387-391 | the announced count is the number of printed lines |
| SyntheticDiff.ReadPrinted | host/internal/diff/parser.go:29-91 | printed hunk headers are read back exactly |
| SyntheticDiff.UntrackedRoundTrip | host/internal/diff/poller.go:246-411 | for every list of untracked files: one chunk per non-binary file, in order, with the right range and as many added lines as announced, decoding to the exact bytes of the file |
| SymlinkDiff.SymlinkExact | host/internal/diff/poller.go:413-441 | a symlink diff is read back if and only if the target has no newline |
| SymlinkDiff.ListExact | host/internal/diff/poller.go:246-441 | for every list of untracked files: the concatenated diffs decode to the bytes of the files, one chunk each and in order, if and only if no symlink target has a newline |
| DiffSections.RunGitDiff | host/internal/diff/poller.go:187-243 | the text is its parts with a newline between non-empty ones; its chunks are those of the parts if and only if the staged diff has no body line or chunk header ahead of its first file header that the unstaged diff would take |
| DiffSections.QuotedHeaderMixes | host/internal/diff/parser.go:31-91 | a staged diff with a quoted header gives its chunk to the last unstaged file |
| DiffSections.ExtractFileDiffSection | host/internal/diff/parser.go:206-236 | the first section of the file |
| DiffSections.ExtractCommutes | host/internal/diff/parser.go:202-236 | parsing the section gives the file's first chunks, and all of them when one header names the file |
| Text.TrimExactly | host/internal/server/gemini_event_parser.go:325 | the trimmed text is the text without its leading and trailing spaces, tabs, line feeds, vertical tabs, form feeds and carriage returns, and nothing else has that shape |
| Text.LinesAppend | host/internal/pty/session.go:278-307 | cutting a stream anywhere and carrying the remainder loses nothing |
| RingBuffer.Ring.constructor | host/internal/pty/ringbuffer.go:48-58 | an empty buffer, of 5000 lines by default |
| RingBuffer.Ring.Write | host/internal/pty/ringbuffer.go:62-80 | keeps the last cap lines |
| RingBuffer.Ring.Lines | host/internal/pty/ringbuffer.go:84-114 | returns them oldest first |
| RingBuffer.Ring.Clear | host/internal/pty/ringbuffer.go:131-136 | empties the buffer |
| RingBuffer.KeepsTheLast | host/internal/pty/ringbuffer.go:10-24 | over any writes and clears: the last cap lines written since the last clear |
| TerminalHistory.ExtractAndBufferLines | host/internal/pty/session.go:286-307 | history gets the complete lines of pending + chunk, the rest stays pending |
| Utf8.SanitizeUTF8 | host/internal/pty/session.go:343-360 | valid UTF-8 is kept, every other byte becomes a replacement character |
| Utf8Laws.ValidExactly | host/internal/pty/session.go:344-347 | a text counts as valid if and only if it is the encoding of some list of Unicode scalar values |
| Utf8Laws.EncodedOnce | host/internal/pty/session.go:344-347 | of one list only |
| Utf8Laws.SanitizeExactly | host/internal/pty/session.go:349-360 | an encoded scalar is kept, and a byte with which none starts becomes U+FFFD |
| Utf8Laws.UnchangedExactly | host/internal/pty/session.go:343-360 | exactly the encoded texts come through unchanged, and a second pass changes nothing |
| Utf8.SanitizeSplit | host/internal/pty/session.go:343-360 | sanitizing two chunks apart is sanitizing them together if and only if no rune is cut |
| TerminalHistory.CaptureOutput | host/internal/pty/session.go:206-276 | every non-empty read is sanitized and forwarded by itself, in order; history holds the last cap lines of the sanitized chunks, an unterminated last one flushed |
| TerminalHistory.ChunksAreTheStream | host/internal/pty/session.go:230-239 | the sanitized chunks are the sanitized stream, wherever it was cut, if and only if no chunk ends inside a rune |
| TerminalHistory.EuroInTwo | host/internal/pty/session.go:230-239 | a character read in two pieces is lost |
| TerminalHistory.ReplayIsTheStream | host/internal/pty/session.go:201-204 | an unclipped history replays the stream byte for byte |
| TerminalHistory.ReplayIsATail | host/internal/pty/session.go:201-204 | a clipped one replays a tail of the stream that starts at a line |
| OutputGate.SessionOutputGate.CallbackEnter | host/internal/server/session_output_gate.go:27-45 | discard, buffer or forward |
| OutputGate.SessionOutputGate.ActivateEnter | host/internal/server/session_output_gate.go:47-68 | the first batch, or nothing |
| OutputGate.SessionOutputGate.ActivateAgain | host/internal/server/session_output_gate.go:74-81 | the next batch, or the end of the drain |
| OutputGate.SessionOutputGate.Drop | host/internal/server/session_output_gate.go:84-93 | drops what is buffered |
| OutputGate.StepOrdered | host/internal/server/session_output_gate.go:27-93 | for any number of Activates at once: a step keeps forwarded, batches, buffered and in-hand chunks the received ones in order if and only if it does not forward a chunk ahead of a different one |
| OutputGate.AlwaysInv | host/internal/server/session_output_gate.go:27-93 | so every interleaving of one producer, any Activates and drops without such a step keeps them in order |
| OutputGate.OneActivateSuffices | host/internal/server/session_output_gate.go:47-81 | with one Activate draining at a time there is no such step |
| OutputGate.CaughtUp | host/internal/server/session_output_gate.go:74-79 | after Activate returned and with an idle producer all was forwarded |
| OutputGate.ActivateDelivers | host/internal/server/session_output_gate.go:47-81 | once Activate was called, with no drain at work, an idle producer and no drop, all was forwarded in order |
| OutputGate.OnlyInFlightAfterDrop | host/internal/server/session_output_gate.go:84-93 | after a drop only chunks in flight at that moment are forwarded, in order, until one overtakes another |
| OutputGate.DropForgets | host/internal/server/session_output_gate.go:84-93 | a drop forgets what is buffered and all that arrives later |
| OutputGate.DropNeverSeenInLoop | host/internal/server/session_output_gate.go:58-64 | the drop check in the loop is never what ends a drain |
| OutputGate.OverlapReorders | host/internal/server/session_output_gate.go:47-73 | a run with two overlapping activations that reorders output |
| ApprovalQueue.Queue.AddTemporaryAllow | host/internal/server/approval.go:500-522 | one rule per command, overwritten in place |
| ApprovalQueue.Queue.CheckTemporaryAllow | host/internal/server/approval.go:527-555 | prunes expired rules and returns the first match |
| ApprovalQueue.Queue.CleanExpiredRules | host/internal/server/approval.go:560-582 | prunes, and counts what went |
| ApprovalQueue.Queue.Register | host/internal/server/approval.go:196-203 | a duplicate request id is refused |
| ApprovalQueue.Queue.TakePending | host/internal/server/approval.go:283-295 | a decision takes the request out |
| AllowRules.MatchExact | host/internal/server/approval.go:524-555 | the lazily pruned list matches a command if and only if its latest grant has not expired, and names that grant |
| ApprovalLaws.AutoApprovedExactly | host/internal/server/approval.go:163-181 | in every reachable state a call is auto-approved if and only if the latest grant of its command expires later |
| ApprovalLaws.AlwaysInv | host/internal/server/approval.go:283-329 | for every interleaving: at most one send per response channel, never on a full one, and only responses of decisions about that call |
| ApprovalLaws.ApprovedOnlyByDecision | host/internal/server/approval.go:228-242 | a call that returns a response got it from a decision about it |
| ApprovalLaws.GrantsExactly | host/internal/server/approval.go:296-318 | a grant is made by an approving decision with an expiry and by nothing else, for that command, time and device |
| ApprovalLaws.DecisionsExactly | host/internal/server/approval.go:283-296 | a decision is about the call registered under its request id, takes the registration and is kept as it was made |
| ApprovalLaws.PhasesExactly | host/internal/server/approval.go:196-242 | how a call comes to its result: duplicate, decision, timeout or context |
| ApprovalLaws.StepDecidable | host/internal/server/approval.go:228-294 | every waiting call stays decidable if and only if no step removes another call's registration |
| ApprovalLaws.FreshIdsSuffice | host/internal/server/approval.go:164-242 | over every run without repeated or cancelled request ids every waiting call stays decidable |
| ApprovalLaws.ReusedIdOrphans | host/internal/server/approval.go:229-233 | with a repeated id it can |
| Pairing.PairingManager.CheckRateLimit | host/internal/auth/pairing.go:226-247 | prunes old buckets and limits by their sum |
| Pairing.PairingManager.ValidateCode | host/internal/auth/pairing.go:132-197 | new state and outcome of an attempt |
| PairingLaws.LimitCounts | host/internal/auth/pairing.go:226-240 | the pruned sum is the number of attempts admitted in the last 61 buckets |
| PairingLaws.LimitedExactly | host/internal/auth/pairing.go:223-255 | over every run an attempt is turned away if and only if the maximum was admitted since the second sixty seconds ago |
| PairingLaws.PairedExactly | host/internal/auth/pairing.go:132-197 | over every run: an admitted attempt pairs a device if and only if it guesses the code generated last, within its life, before any other attempt did, and the device is stored; otherwise exactly which error it gets |
| PairingLaws.SlidingWindow | host/internal/auth/pairing.go:226-255 | any 61 consecutive second buckets admit at most the configured maximum |
| PairingLaws.AnyMinute | host/internal/auth/pairing.go:226-255 | so does any minute, wherever it starts |
| PairingLaws.GuessesPerCode | host/internal/auth/pairing.go:104-166 | a code that lives less than 61 * k seconds is compared at most k times the maximum |
| PairingLaws.TenGuesses | host/internal/auth/pairing.go:83-92 | with the defaults (two minutes, five attempts) at most ten guesses per code |
| PairingLaws.OneSuccessPerCode | host/internal/auth/pairing.go:168-170 | a generated code pairs at most one device |
| FileWatch.IsUnderErrPath | host/internal/server/file_watch_poller.go:290-308 | exact match, descendant, or failed root |
| FileWatch.DiffSnapshots | host/internal/server/file_watch_poller.go:312-362 | deletions, creations and modifications, each strictly ascending and complete |
| FileWatch.DiffIsDeterministic | host/internal/server/file_watch_poller.go:310-311 | the result does not depend on map iteration order |
| FileWatch.EventsExactly | host/internal/server/file_watch_poller.go:290-362 | when a path is reported as deleted, created or modified, and no other time |
| FileWatch.EventsOrdered | host/internal/server/file_watch_poller.go:310-362 | deletions first, then creations, then modifications, each ascending |
| StringOrder.LessExactly | host/internal/server/file_watch_poller.go:322 | ascending is by the first differing byte |
| FileWatch.KnownIsCurrent | host/internal/server/file_watch_poller.go:341-360 | over every run a client that looks at a file when told knows its size, time and link target |
| FileWatch.EventsLeadToNewPaths | host/internal/server/file_watch_poller.go:312-362 | applied to the old paths the events give the new paths plus exactly the suppressed deletions |
| FileWatch.TickExact | host/internal/server/file_watch_poller.go:128-155 | which stale paths a client has after one tick |
| FileWatch.MirrorContainsSnapshot | host/internal/server/file_watch_poller.go:128-155 | over any run of ticks a client contains the snapshot, and equals it until a scan has errors |
| FileWatch.StaleForever | host/internal/server/file_watch_poller.go:317-322 | a path kept by mistake is not taken away by later clean scans |
| FileWatch.FileWatchPoller.TickScanned | host/internal/server/file_watch_poller.go:143-155 | the snapshot is replaced and the difference reported |

## Left out

- Decoding of JSON, the regex engine beyond the two diff headers, SHA-256, bcrypt and UUIDs: lines are decoded by a given function, SHA-256 is taken to be free of collisions, so fingerprints are compared by the bytes they digest; digests and fresh ids are inputs.
- `strings.TrimSpace` is modelled for the white space of ASCII only.
- HTTP, WebSocket, PTY and process plumbing, git subprocesses, SQLite, log and error texts, and the display fields of the keep-awake status payload.
- Parsing of keep-awake messages.
- Chunk ids (a hash) and creation times; the hash that skips an unchanged diff.
- A first read of fewer than 8000 bytes when a file is larger: the binary test looks at the first 8000 bytes.
- Excerpts of JSONL tool inputs and results arrive already sanitised from the decoder; the Gemini sanitisers are given functions.
- Gemini timestamps are real numbers, without floating-point rounding.
- The 64-bit width of the lease counter and of the status revision.
- Stopping a pipeline, a second bind and errors of the controller's merge: the callbacks of one bound reader are modelled.
- One critical section of the control plane reads the clock once, and once more when it arms timers.
- The caller suffix of the "cli" audit actor, and audit fields other than operation, actor, lease and time.
- Power and audit seams are wired once; the power source is an input of each critical section.
- Mutual waiting of two requests with the same key: the reservation is always discharged before the lock is released, so a waiter is never seen.
- Update times of the inhibitor status.
- Audit records and observers of the approval queue, and its pending list.
- The error report of the file watcher and the walk of the repository tree.
- KeepAwakeSafety.AlwaysWatched: says nothing after shutdown, which stops every timer and leaves the leases.
- KeepAwakePolicy.RemoteOffAlways: is stated for policy mutations one at a time; StepRemoteOff says exactly what else can go wrong.

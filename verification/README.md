# Verified model of the fishhub server

The fishhub server keeps aquarium devices, their triggers and their peripherals in Postgres, and keeps the MQTT
broker's retained messages and credentials in step with those tables through a transactional outbox. This project
models the parts of the server whose correctness depends on histories rather than on single calls, and proves what
holds in every run.

- **The outbox, end to end** (`Events`, `Outbox`, `Delivery`, `Runner`, `Drain`, `Leases`, `Tables`, `RequestLaws`,
  `Services`, `SystemMachine`, `Convergence`, `ClearedTopics`, `StaleTopics`, `MachineTicks`, `Readiness`,
  `BrokenCredentials`, `EndToEnd`). Writer transactions change tables and append events;
  ticks claim batches, group them by type and let one worker per type deliver them; every broker call may succeed,
  fail, or fail after having taken effect; every row write may be lost. The main results: every interleaving of the
  workers equals sequential delivery; leases are safe with any number of runners that write in time; the outbox
  drains within an exact number of ticks and no row waits longer than a bound, in runs of the whole machine; on every
  topic whose newest event is completed, the broker shows what the tables say if and only if the last event to reach
  the topic is the newest one or carries the same message; a provisioned device has its credential and role if and
  only if none of three named calls was made for it; and what an accepted request asked for is what its topic then
  holds, until the next request about the same thing.
- **Firmware updates** (`Firmware`, `FirmwareReports`): confirm, retry, status messages, releases and time over a device's records.
- **Refresh tokens** (`Tokens`) and **provisioning codes** (`Codes`): any number of requests, interleaved statement
  by statement, with failures and crashes anywhere.
- **Keyset pagination** (`Pagination`), **last readings** (`Readings`) and **addresses** (`Text`, `Addressing`).

Objects that the server updates in place are classes whose methods are proved against functions of the old state;
the results are then proved about those functions and about the state machines built from them.
`Wrappers` and `Calls` hold options, results and the outcome of a call.

## Conditions that the code does not enforce

The results name the conditions they need, and several modules hold counterexamples that show why:

- `RETURNING` promises no order, while the runner relies on creation order; the machine assumes it
  (`InCreationOrder`). Without it: `StaleTopics.UnorderedBatchOvertakes`.
- A failed event goes back to pending and is retried after later events on its topic, and a row whose result was not
  written is delivered again. Either way an older event may be the last to reach a topic:
  `StaleTopics.RetryOvertakesNewer` and `StaleTopics.LostWriteOvertakes`. The machine marks the topic as tainted until
  its newest event is claimed with all older ones completed or dead. An untainted topic is up to date
  (`Convergence.SettledIsUpToDate`), and a topic recovers whatever has happened to it once its older events are over
  (`Convergence.TopicRecovers`).
- `MarkCompleted` and `RecordFailure` check neither status nor claimant, so a result must be written before its claim
  times out. `Leases.WriteIsSafeIffWritable` says exactly which writes are harmless, `Leases.GuardedWritesAreSafe`
  that a guard on them would do for all runs, late writes included, and `Leases.LateFailureRevivesRow` gives a run in
  which a late write revives a completed row.
- Writer requests are serial and each starts later than the one before, because `created_at` is the transaction's
  start time. A timezone lookup fails only if there is no account.
- The provisioning processor takes any 409 for success. After a create that reports an error although it has taken
  effect, the retry is answered 409 and completes the event without the role; and if attaching the role is refused
  with 409, the event is completed although the credential has been deleted again. `BrokenCredentials` gives both
  runs, and `Readiness.ProvisionedCredential` the exact condition.
- A withdrawn release can leave a device for which confirm and retry are refused for ever;
  `Firmware.WedgedIffStuck` says exactly when.
- `docs/database.md`, `docs/auth.md` and `docs/architecture.md` describe an event type `hivemq.provision` whose
  processor writes the credentials back to the device. The code stores them during activation and names the type
  `mqtt.provision_device`; the model follows the code. The same holds for the comment in `internal/trigger/store.go`
  that promises an ownership check on trigger creation: the insert has none.

## Model

| member | source | states |
|---|---|---|
| Events.RenderInjective | internal/trigger/outbox_processor.go:31 | two topics share a topic string only if they are the same topic, so processors of different types never share one |
| Events.NewestOfAppended | internal/outbox/store_postgres.go:74-87 | appending events moves the newest event of a topic exactly if one of them is on the topic |
| Outbox.Store.ClaimBatch | internal/outbox/store_postgres.go:18-46 | claims the oldest claimable rows up to the limit, in creation order, stamps exactly those, and returns their events |
| Outbox.Store.MarkCompleted | internal/outbox/store_postgres.go:48-55 | completes the row whatever its status was, and nothing else |
| Outbox.Store.RecordFailure | internal/outbox/store_postgres.go:57-72 | writes the claimed count plus one, dead at the limit and pending below it, whatever the row's status was |
| Outbox.Store.Insert | internal/outbox/store_postgres.go:74-87 | appends a pending row with the transaction's start time and keeps creation order |
| Delivery.StepsCommute | internal/outbox/runner.go:67-83 | steps of the workers of two types lead to the same rows, retained messages and credentials in either order |
| Delivery.Confluence | internal/outbox/runner.go:67-83 | all schedules that run the workers to completion end in the same state |
| Delivery.SequentialSchedule | internal/outbox/runner.go:61-83 | processing the batch in claim order is one of these schedules |
| Delivery.ConcurrencyIsHarmless | internal/outbox/runner.go:51-84 | for fixed outcomes, every interleaving of the per-type workers ends exactly as sequential processing in claim order |
| Delivery.DeleteAttempt | internal/trigger/outbox_processor.go:33-52 | an attempt at a delete succeeds exactly if its first publish is accepted; it then leaves the topic empty if the clearing publish took effect and the delete message if not; other topics stay |
| Delivery.PushAttempt | internal/peripheral/outbox_processor.go:36-41 | any other push publishes its message once and succeeds exactly if that is accepted; other topics stay |
| Runner.Broker.PublishRetained | internal/trigger/outbox_processor.go:41-50 | a payload replaces the retained message, an empty one clears it, and a failed call may have done so too |
| Runner.Broker.CreateCredential | internal/hivemq/client.go:34-43 | creates a credential only if there is none and answers an existing one with a conflict |
| Runner.Broker.AttachRole | internal/hivemq/client.go:45-46 | gives an existing credential its role, or answers an error or a conflict |
| Runner.Broker.DeleteCredential | internal/hivemq/client.go:47-48 | the compensating delete, whose error is ignored |
| Runner.Broker.ProvisionDevice | internal/hivemq/client.go:34-53 | create, attach and compensate amount to one attempt of the delivery model, other credentials untouched |
| Runner.ProcessPush | internal/trigger/outbox_processor.go:25-79 | one attempt of the delivery model: success exactly if the first publish is accepted, and then the topic holds the message, or is empty after a delete whose clearing publish took effect |
| Runner.ProcessProvision | internal/provisioning/outbox_processor.go:45-58 | a conflict counts as success |
| Runner.GroupByType | internal/outbox/runner.go:61-65 | each group holds the events of its type in claim order |
| Runner.OutboxRunner.Process | internal/outbox/runner.go:86-111 | one attempt and the write of its result amount to finishing the event |
| Runner.OutboxRunner.TakeTurn | internal/outbox/runner.go:76-81 | a goroutine's turn is a run of its worker through the head of its queue |
| Runner.OutboxRunner.Tick | internal/outbox/runner.go:51-84 | however the goroutines take turns, a tick claims a batch and ends as if it were processed in claim order |
| Drain.TickIsRound | internal/outbox/runner.go:51-111 | with registered types and successful writes a tick gives every claimed row one more attempt and no other row any |
| Drain.TickUsesAttempts | internal/outbox/runner.go:51-111 | without inserts a tick lowers the attempts left by at least min(50, live rows) |
| Drain.OutboxDrains | internal/outbox/store_postgres.go:57-72 | after floor(attempts left / 50) + maxAttempts ticks every row is completed or dead, and dead only after maxAttempts failures |
| Drain.BoundedWaiting | internal/outbox/store_postgres.go:23-29 | a pending row with r live rows as old or older is claimed within floor(r * maxAttempts / 50) + 1 ticks, whatever fails or is inserted |
| MachineTicks.MachineTickIsRound | internal/outbox/runner.go:51-84 | however calls, row writes, requests and time interleave, a tick that loses no row write gives each claimed row exactly one more attempt |
| MachineTicks.ReachableBudget | internal/outbox/store_postgres.go:57-62 | in every reachable state live rows have attempts left and dead rows have used up all of them |
| MachineTicks.MachineDrains | internal/outbox/runner.go:51-111 | the drain bound for runs of the whole machine from any reachable state without leftover claims |
| MachineTicks.MachineWaits | internal/outbox/store_postgres.go:23-29 | the waiting bound for runs of the whole machine from any reachable state |
| Leases.LeaseSafety | internal/outbox/store_postgres.go:18-72 | with any number of runners writing in time: one unexpired holder per row, attempts equal recorded failures, completed and dead rows never change again |
| Leases.TerminalRowsStay | internal/outbox/store_postgres.go:48-72 | no step changes a completed or dead row |
| Leases.WriteIsSafeIffWritable | internal/outbox/store_postgres.go:48-72 | a write at any time keeps terminal rows and the failure count if and only if the row is still writable |
| Leases.TimelyWriteIsWritable | internal/outbox/store_postgres.go:48-72 | a write within the lease always is |
| Leases.GuardedWritesAreSafe | internal/outbox/store_postgres.go:48-72 | if every result, however late, is written to a still writable row, then in every run of any number of runners attempts equal recorded failures and completed and dead rows never change |
| Leases.LateFailureRevivesRow | internal/outbox/store_postgres.go:63-67 | a reachable state in which a late failure revives a completed row |
| Tables.RequestKeepsAgreement | internal/trigger/service.go:59-248 | every writer request, accepted or refused, leaves the newest event of every topic in agreement with the tables |
| RequestLaws.ActionsLaw | internal/trigger/service.go:252-309 | actions are accepted exactly if each peripheral action names an actuator in use of the user's device, and are completed with its kind-pin and nothing else |
| RequestLaws.CreationLaw | internal/trigger/store.go:41-71 | when a creation is accepted, and that it stores and enqueues an enabled trigger with the given name, condition, cooldown and completed actions |
| RequestLaws.PatchMerges | internal/trigger/service.go:176-216 | a patch is accepted exactly if its actions are; each field it gives replaces the current one, given actions replace the whole set, and every other field stays |
| RequestLaws.UpdateLaw | internal/trigger/service.go:125-171 | an update is accepted exactly for a trigger of the user's device that is not deleted; it stores the merged trigger, enqueues exactly that, and leaves all other rows alone |
| RequestLaws.TriggerDeletionLaw | internal/trigger/store.go:206-231 | a deletion marks exactly this trigger as deleted and enqueues its delete |
| RequestLaws.RegistrationLaw | internal/peripheral/store.go:54-100 | a registration is accepted exactly if no peripheral in use has the name or pin on the device or the port anywhere; what it stores, what it enqueues, and why it is refused |
| RequestLaws.RemovalLaw | internal/peripheral/store.go:317-355 | a removal marks exactly this peripheral as deleted and enqueues the delete of its kind-pin |
| RequestLaws.TimezoneLaw | internal/account/service.go:29-65 | a change is accepted exactly for a known timezone and an existing account, which then holds the argument; one push of it per listed device |
| RequestLaws.SignInLaw | internal/account/store_postgres.go:18-33 | the first sign-in creates the account in UTC, later ones keep its timezone |
| RequestLaws.ClaimLaw | internal/provisioning/store.go:106-114 | a claim adds a device of the user without credentials and changes no other |
| RequestLaws.ActivationLaw | internal/provisioning/activation.go:91-137 | activation stores the device id and the password, and enqueues exactly these and the owner's timezone |
| RequestLaws.DeviceDeletionLaw | internal/device/store.go:90-105 | a deletion marks exactly this device as deleted |
| RequestLaws.StrangersChangeNothing | internal/trigger/store.go:148-176 | requests about a device the user does not hold change and enqueue nothing; creating a trigger without peripheral actions is the exception |
| Tables.TriggerWriteAgrees | internal/trigger/service.go:86-94 | writing a trigger together with its push keeps the agreement, for deletes as well |
| Tables.RegistrationAgrees | internal/peripheral/service.go:64-97 | registering under the unique indexes keeps one occupant per pin and its create as the newest event |
| Tables.RegisteredIndexed | db/migrations/028_peripherals_add_port_id.up.sql:4-6 | a registration that passes the name, pin and port checks keeps all three indexes |
| Tables.OnlyOwnerOfTopic | db/migrations/016_peripheral_pin_unique.up.sql:1-3 | peripherals on different pins of a device never share a topic, whatever their kinds |
| Tables.RemovalAgrees | internal/peripheral/service.go:266-296 | deleting a peripheral frees its topic: the newest event there is a delete and no other occupant is disturbed |
| Tables.TimezoneChangeAgrees | internal/account/service.go:29-65 | after a fan-out the newest config event of each activated device of the user carries the new timezone, others keep theirs |
| Tables.ActivationAgrees | internal/provisioning/activation.go:105-137 | activation enqueues the stored credentials and the owner's current timezone |
| Services.ResolvedActionsName | internal/trigger/service.go:252-272 | every resolved peripheral action names the kind-pin of an active actuator of the trigger's own device |
| Services.ValidatePeripheralAction | internal/trigger/service.go:252-272 | finds the kind-pin or the refusal that the resolution of the action has |
| Services.ResolveInPlace | internal/trigger/service.go:66-79 | overwriting the configs in place resolves all actions or stops at the first refusal |
| Services.Create | internal/trigger/service.go:59-104 | stores an enabled trigger with the arguments and the completed actions and enqueues exactly that, or changes nothing |
| Services.ApplyPatch | internal/trigger/service.go:176-216 | each given field replaces the current one, given actions replace the set, an empty condition means no change, and all else stays |
| Tables.PatchLaws | internal/trigger/service.go:176-216 | an empty patch changes nothing, giving a patch twice is giving it once, and it is refused exactly for an unresolvable action |
| Services.Update | internal/trigger/service.go:125-171 | stores the trigger merged with the patch, its action set included, and enqueues exactly what it stores, or changes nothing |
| Services.Delete | internal/trigger/service.go:219-248 | marks the trigger deleted and enqueues the delete, or changes nothing |
| Services.RegisterPeripheral | internal/peripheral/store.go:54-100 | inserts the peripheral and its create, or refuses for the device, the name, the pin or the port and changes nothing |
| Services.RemovePeripheral | internal/peripheral/service.go:266-296 | marks the peripheral deleted and enqueues the delete under its kind-pin, or changes nothing |
| Services.ChangeTimezone | internal/account/service.go:29-65 | accepted exactly for a known timezone and an existing account, which then holds the argument, with one pending push of it per listed device; otherwise nothing changes |
| Services.ActivateDevice | internal/provisioning/activation.go:97-142 | stores the credentials and enqueues the provision and config events, or changes nothing |
| Convergence.ReachableInvariant | internal/outbox/runner.go:51-111 | in every reachable state queues hold claimed rows once and in order, each topic shows the row that last reached it, completed rows have reached theirs, and untainted topics resolve in creation order |
| Convergence.TopicConverges | internal/outbox/runner.go:51-111 | in every reachable state a topic whose newest event is completed retains that event's message if and only if the last event to reach it is that one or carries the same message; a topic without events retains nothing |
| Convergence.SettledIsUpToDate | internal/outbox/runner.go:12-14 | if, since the topic last recovered, no event on it was overtaken and no row write lost, the newest event is the last to reach it |
| Convergence.TopicRecovers | internal/outbox/store_postgres.go:57-72 | whatever happened before, once all older events of a topic are completed or dead, the topic shows its newest event whenever that is completed, through any failures and lost writes of its own |
| Convergence.TriggersConverge | internal/trigger/outbox_processor.go:25-79 | once its newest event is completed, a trigger's topic is the upsert of its stored fields, or after deletion empty or a delete, if and only if the topic is up to date |
| Convergence.PeripheralsConverge | internal/peripheral/outbox_processor.go:25-42 | once its newest event is completed, the topic of a kind-pin is the create, with the stored purpose, of the active peripheral there, or a delete without one, if and only if it is up to date; without events it is empty |
| Convergence.OneOccupant | db/migrations/016_peripheral_pin_unique.up.sql:1-3 | at most one active peripheral per pin of a device, and per port over all devices |
| Convergence.ConfigsConverge | internal/account/outbox_processor.go:34-55 | once its newest config event is completed, an activated device's config carries its owner's current timezone, UTC without an account, if and only if its topic is up to date |
| ClearedTopics.DeletedTriggerCleared | internal/trigger/outbox_processor.go:46-51 | in every reachable state with the delete completed and its topic up to date, a clearing call was made, and the topic is empty if and only if the last one took effect |
| EndToEnd.CreationArrives | internal/trigger/service.go:59-104 | an accepted creation's condition, cooldown and completed actions are what its topic holds, enabled, if and only if the topic is up to date, until the next request about the trigger |
| EndToEnd.UpdateArrives | internal/trigger/service.go:125-171 | likewise the merged fields of an accepted update |
| EndToEnd.DeletionArrives | internal/trigger/service.go:219-248 | after an accepted deletion the topic is empty if and only if the last clearing call took effect, and otherwise holds the delete |
| EndToEnd.RegistrationArrives | internal/peripheral/service.go:64-97 | an accepted registration's kind, pin and purpose are what its topic holds if and only if the topic is up to date, until it is removed |
| EndToEnd.RemovalArrives | internal/peripheral/service.go:266-296 | after an accepted removal the topic holds a delete if and only if it is up to date, until the next registration there |
| EndToEnd.TimezoneArrives | internal/account/service.go:29-65 | the timezone asked for is what the topic of every activated device of the user holds if and only if it is up to date, until the user's next change |
| EndToEnd.ActivationArrives | internal/provisioning/activation.go:97-137 | once the provision event is completed, the password of the activation is at the broker with the role under the conditions on the broker calls alone |
| EndToEnd.DeviceDeletionRevokes | internal/device/service.go:33-47 | at a device deletion the credential goes exactly if the detach was accepted and the delete took effect; other credentials stay |
| StaleTopics.RetryOvertakesNewer | internal/outbox/store_postgres.go:57-62 | a run in which a retried event overwrites a newer one with every row completed |
| StaleTopics.UnorderedBatchOvertakes | internal/outbox/store_postgres.go:30 | the same for a batch returned out of order |
| StaleTopics.LostWriteOvertakes | internal/outbox/runner.go:108-110 | the same for a completion that is not written |
| Readiness.ReadyIff | internal/device/store.go:107-136 | in every reachable state a device is ready if and only if it is not deleted, was activated, and all its events are completed or dead |
| Readiness.ReadyAnswer | internal/device/store.go:107-136 | a ready device is told its id and the password of its provision event, which the broker accepts under the conditions on the broker calls; unknown is answered exactly for missing and deleted devices |
| Readiness.ProvisionedCredential | internal/provisioning/outbox_processor.go:45-58 | after a completed provision event, despite redelivery, the broker holds exactly the stored username and password with the role if and only if no create took effect while reporting an error, no attach failed together with its compensating delete, and no credential was deleted after an attach refused with 409 without being created again |
| BrokenCredentials.LateCreateLeavesNoRole | internal/provisioning/outbox_processor.go:51-56 | a reachable state with the provision event completed and the credential without its role, after a create that took effect while reporting an error |
| BrokenCredentials.RefusedAttachLeavesNothing | internal/hivemq/client.go:46-50 | a reachable state with the provision event completed and no credential, after an attach refused with 409 |
| Readiness.WhenOrphaned | internal/hivemq/client.go:34-53 | one attempt with fixed outcomes leaves a credential without its role exactly in these cases of failing calls |
| Readiness.WhenDropped | internal/provisioning/outbox_processor.go:62-67 | an attempt is taken for success without a credential exactly if attaching was refused with 409 and the compensating delete took effect |
| Firmware.FirmwareService.ConfirmUpdate | internal/firmware/service.go:101-139 | refuses without a release or with a pending record of it; otherwise publishes first and then appends the record; other devices untouched |
| Firmware.FirmwareService.RetryUpdate | internal/firmware/service.go:141-185 | accepts failed and timed-out latest records only, publishes the current release, and resets nonce and time but not the version |
| Firmware.FirmwareService.IngestStatus | internal/firmware/service.go:188-206 | records the reported version, and ok completes the last pending record of the version while a failure fails the last pending record of any |
| FirmwareReports.ConfirmLaw | internal/firmware/service.go:101-139 | when a confirm is accepted and why it is refused; it publishes the release with its nonce and appends one record that is pending for the timeout |
| FirmwareReports.RetryLaw | internal/firmware/service.go:141-185 | a retry is accepted exactly if the latest record has failed or timed out; that record keeps its version and is pending again for the timeout, the others stay |
| FirmwareReports.FailureReported | internal/firmware/device_firmware_store.go:80-92 | a failure report fails exactly the last pending record, with its reason; it is shown as failed at every time, and if it is the latest, retry is accepted at once |
| FirmwareReports.OkReported | internal/firmware/device_firmware_store.go:66-78 | an ok report completes exactly the last pending record of its version, which is shown as succeeded at every time |
| FirmwareReports.NothingReported | internal/firmware/service.go:188-206 | any other report changes the reported version only, and a message that is not stored nothing |
| FirmwareReports.OnlyReportsDecide | internal/firmware/service.go:193-203 | in every run a record succeeds only through an ok report for its own version and fails only through a failure report with the reason it shows |
| Firmware.OkClearsPending | internal/firmware/device_firmware_store.go:58-92 | after any run at most one record per version is pending, so a report of ok leaves none |
| Firmware.NeverWedges | internal/firmware/service.go:101-185 | with releases moving forward no run wedges a device, a refused confirm means the latest record is the pending one, and retry is accepted exactly when it has timed out |
| Firmware.WedgedIffStuck | internal/firmware/service.go:111-117 | confirm and retry are both refused at every later time if and only if a record of the release is pending and the latest record has succeeded |
| Firmware.WithdrawnReleaseWedges | internal/firmware/service.go:151-163 | a run that withdraws a release and leaves the device wedged |
| Firmware.ManifestAgrees | internal/firmware/service.go:124-135 | the retained manifest carries the latest record's nonce, its version differs exactly after a retry under another release, and is never older with releases moving forward |
| Firmware.InstallingManifestCompletes | internal/firmware/device_firmware_store.go:128-137 | installing the retained manifest completes the pending record exactly unless it was retried under another release |
| Tokens.TokenFamilies | internal/auth/service.go:189-242 | under any interleaving and failures a login's family has exactly one usable token, rotation under way or request that ended it, one user, and no token is spent twice |
| Tokens.OneRotationWins | internal/auth/service.go:201-233 | of any requests presenting one token at most one gets a new token, which is of the same user |
| Tokens.RotatedBeforeExpiry | internal/auth/service.go:210-222 | in every run each token expires TTL after its own creation, and a rotated one comes from a parent that was checked no later than its expiry |
| Tokens.RevokedOnce | internal/auth/store_postgres.go:97-112 | revoked_at is set at most once and a token keeps its user and family however the run goes on |
| Tokens.EndedFamilyStaysEnded | internal/auth/service.go:235-242 | after a confirmed logout or a lost rotation the family never has a usable token again |
| Tokens.TokenService.Create | internal/auth/store_postgres.go:64-78 | inserts the token unless its hash is taken |
| Tokens.TokenService.FindByHash | internal/auth/store_postgres.go:80-95 | finds the token with the hash or answers not found |
| Tokens.TokenService.Revoke | internal/auth/store_postgres.go:97-112 | revokes a usable token and answers not found for any other, leaving it as it is |
| Tokens.TokenService.IssueRefreshToken | internal/auth/service.go:189-199 | does what the machine's login step does: a new token that expires TTL from now |
| Tokens.TokenService.RotateRefreshToken | internal/auth/service.go:201-233 | leaves the table and the answer of a machine run in which the request is alone; accepted only for a token that is neither revoked nor expired, refused as not found, revoked or expired otherwise |
| Tokens.TokenService.RevokeRefreshToken | internal/auth/service.go:235-242 | leaves the table and the answer of a machine run in which the logout is alone; accepted only for a token that is not revoked, which it revokes |
| Codes.CodeClaims | internal/provisioning/store.go:76-125 | under any interleaving and failures used codes and devices correspond one to one with matching user, and each used code was used by exactly one claim; a code given out belongs to the user who asked |
| Codes.ClaimsAreFinal | internal/provisioning/store.go:97-103 | used codes, devices and answers never change again |
| Codes.RollbackLeavesNothing | internal/provisioning/store.go:90-124 | every step but the commit of a claim, in particular a rollback, leaves all codes as they were and no device |
| Codes.CodeStore.ClaimCode | internal/provisioning/store.go:76-125 | leaves the tables and the answer of a machine run in which the claim is alone |
| Codes.CodeStore.GetOrCreateCode | internal/provisioning/store.go:32-74 | likewise: returns an unused code of the user or creates one |
| Codes.ClaimFails | internal/provisioning/store.go:76-103 | a claim of an unknown or used code is refused as such and changes nothing |
| Codes.ClaimCloses | internal/provisioning/store.go:106-124 | from the lock on a claim commits all of its writes or none |
| Codes.GetAlone | internal/provisioning/store.go:32-74 | a code request returns an unused code of the user if there is one and changes nothing, and otherwise adds exactly one unused code of the user |
| Pagination.Table.Ingest | internal/trigger_events/store.go:33-51 | a known key leaves the table as it is and answers the stored row; a new one is appended |
| Pagination.Table.Create | internal/alerts/store_postgres.go:18-36 | appends the alert |
| Pagination.Table.ListCursor | internal/trigger_events/store.go:53-100 | returns exactly the first rows of the owner below the cursor in (time desc, id desc) order |
| Pagination.Table.ServePage | internal/api/trigger_events_handler.go:78-103 | emits a next cursor exactly after a full page, pointing at its last row |
| Pagination.PageOrder | internal/trigger_events/store.go:69-77 | along a page times never increase, ids decrease among equal times, and all rows lie below the cursor |
| Pagination.WalkLists | internal/alerts/store_postgres.go:38-84 | from any cursor, whatever is inserted meanwhile, a walk lists in order exactly the matching rows that were there |
| Pagination.InsertedDuringWalk | internal/alerts/store_postgres.go:54-63 | a row inserted during a walk is listed if and only if it lies below the cursor in use |
| Pagination.WalkUnderInserts | internal/api/alerts_handler.go:47-80 | rows present at the start are listed exactly once, in order, and only the owner's |
| Pagination.FixedTableWalk | internal/api/trigger_events_handler.go:98-103 | on a fixed table the pages are the owner's n rows, each once, newest first, in exactly n / 20 + 1 requests |
| Readings.CaptureRow | internal/measurement/store_influx.go:105-124 | in whatever order a row's fields are visited, it adds its supported values of unseen fields and nothing else |
| Readings.ReduceLatest | internal/measurement/store_influx.go:97-130 | holds for each field that is not reserved its first supported value, coerced, and the first time; nothing if there is no value |
| Readings.OneReduction | internal/measurement/store_influx.go:97-130 | the result depends on the rows only |
| Readings.ReductionIsLatest | internal/measurement/store_influx.go:65-71 | on rows ordered newest first every field holds the value of the newest row that has one |
| Readings.ValueTells | internal/measurement/store_influx.go:112-123 | a value is the first supported cell itself: the float, one for true and zero for false, the text |
| Readings.NothingElse | internal/measurement/store_influx.go:104-124 | reserved fields and fields without a supported cell have no value |
| Readings.PrefixReduction | internal/measurement/store_influx.go:92-96 | reducing newer rows alone gives a part of reducing them with older ones, with the same timestamp |
| Readings.QueryLastReadings | internal/measurement/store_influx.go:52-63 | the first tier that fails or holds a value decides |
| Readings.TierIsPrefix | internal/measurement/store_influx.go:72-90 | the rows of a shorter lookback are the first rows of a longer one |
| Readings.TiersAgree | internal/measurement/store_influx.go:52-90 | every field of the 30-minute result has the 7-day result's value and timestamp |
| Readings.FilterByNamespace | internal/peripheral/service.go:125-137 | keeps exactly the fields that extend the namespace, or nothing |
| Readings.List | internal/peripheral/service.go:101-123 | each listed peripheral gets its part of the last readings, or stays as it is on an error or without readings |
| Readings.FieldListedOnce | internal/peripheral/service.go:112-117 | a field is listed with exactly the peripheral of its kind and pin, and with no other active one |
| Readings.SlashSharesField | internal/peripheral/service.go:125-132 | with a slash in a kind a field can be listed twice |
| Addressing.AddressRoundTrip | internal/alerts/units.go:14-33 | an address is looked up under its own kind and measurement if and only if the kind has no slash and the pin is not negative |
| Addressing.UnitOfAddress | internal/alerts/units.go:14-33 | the unit of a field is the one listed for its kind and measurement, also for kinds with dashes |
| Addressing.KindPinInjective | internal/peripheral/service.go:79-81 | kind-pin names of different kinds or pins differ |
| Addressing.NamespaceLaw | internal/peripheral/service.go:125-132 | the fields of a namespace are its addresses with a measurement of at least one character |
| Text.NatToStringValue | internal/peripheral/service.go:79 | the digits written for a pin stand for that pin |
| Addressing.NamespacesDisjoint | internal/peripheral/service.go:125-132 | no field belongs to the namespaces of two peripherals |

## Left out

- Payload encoding: payloads are datatypes, and an undecodable one is the constructor `Unreadable`. The cursor codec is assumed to round-trip.
- The IANA-to-POSIX table (internal/account/timezone_posix.go): config messages carry the IANA name.
- Error texts: whether a response is a 409 is a field of the call's outcome, not a search in its text, so accidental occurrences of "409" in other errors are not modelled.
- Concurrent writer requests: each writer transaction is one step, and what it reads before its transaction (the device list, the current trigger) is assumed current. The order in which actions are read back is left open.
- The order in which the name, pin and port indexes report a violation: the model checks the name first.
- Peripheral pins are natural numbers and row ids contain no slash, as device model ports and UUIDs are.
- Drain.OutboxDrains: assumes a positive attempt limit, registered types and successful row writes, as does Drain.BoundedWaiting; an unregistered type keeps its rows claimed for ever.
- Leases.LeaseSafety: a claim may take any claimable rows rather than the oldest, which covers rows skipped because another claim has locked them.
- Convergence.TopicConverges: is about a single runner; with several, lease safety holds but no order between their publishes does.
- EndToEnd.DeviceDeletionRevokes: is about the moment of the deletion; a provision event that is still pending then creates the credential again.
- Codes.CodeStore.GetOrCreateCode: picks the first unused code, where the query may pick any; the machine allows any. Codes are random texts supplied by the environment.
- Tokens.TokenService.RotateRefreshToken: hashing and signing are parameters, and a session token is not modelled beyond whether signing it succeeds.
- Firmware.FirmwareService.IngestStatus: a status message whose record update fails acts like one without a result. Presigned URLs and checksums are not modelled.
- Readings.TiersAgree: assumes that both tiers are read at one time and that a device's points have distinct times.
- Postgres and InfluxDB themselves: statements and transactions are atomic steps with their WHERE clauses; row locks are modelled for claiming and creating codes only.
- Renaming devices and peripherals, schedules, control mode, direct commands, SenML ingestion, alert templates and alert jobs, sign-in through identity providers, firmware polling, and HTTP plumbing.

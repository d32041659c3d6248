# Modem service: verified state machines

The service keeps a cellular modem usable: it configures its access point, moves
received text messages from the modem into a durable inbox and forwards some of
them, watches the link and repairs it, counts bytes, and decides what to show. Most of
it is glue between daemons. This project models the parts that make promises over
whole runs, in the presence of failing calls, crashes and cancellation, and proves
those promises.

- **APN transaction** (`ApnConfig`, `ApnBackend`, `ApnTransaction`, `ApnReconcile`,
  `ApnManager`, `ApnRuns`, `ApnRetry`, `ApnOutcomes`). `ApnBackend.World` is NetworkManager,
  ModemManager and the modem together. Each call is decided by the environment: a
  success took effect, an error may have, a call under a dead context did not; between
  calls the link drifts, time passes and contexts expire. A world may be `steady`
  (nobody else edits settings). Every call leaves an event with the backend it met.
  `ApnManager.Manager` is the code; its contract is the relation `Reconciled`, which
  names every branch, and the theorems are about that relation and its runs. `ApnOutcomes`
  says what each answer means in the fields of the request and of what was read.
- **SMS pipeline** (`SmsText`, `SmsParts`, `SmsInbox`, `SmsStore`, `SmsRecords`,
  `SmsProtocol`, `SmsJobs`, `SmsForwarding`, `SmsDestination`, `SmsExactlyOnce`,
  `SmsTakenOver`, `SmsOrigins`, `SmsWitness`, `SmsService`). `SmsStore.Store` is the database, one atomic transaction a method; which transactions,
  reads and deletions fail are parameters (`fails`, `Faults`), so every contract is exact.
  `SmsProtocol.Next` is the state machine of the whole pipeline, with a history of
  everything that ever happened; a restart may fall between any two steps.
  `SmsService.Service` is the code, and each of its methods is proved to be a run of that
  machine, so what holds of every run holds of the code. `SmsRecords` says field by field
  what the transactions do, and `SmsOrigins` traces every row, copy, job and hand-over of
  a run back to the text that was received.
- **Link assessment and remedies** (`Link`, `MissedReads`, `RemedyPolicy`). The assessor's and the
  policy's counters are proved equal to functions of the history of snapshots, times and
  dispatched remedies; the guarantees are about histories.
- **Byte counter** (`DataUsage`), **connectivity classifier** (`Connectivity`) and
  **DNS wire code** (`Dns`), the last against an encoder written from sections
  4.1.1-4.1.4 and 3.3.14 of RFC 1035.

Where a promise turned out not to hold on all inputs, the code is modelled as it is, an
input that breaks the promise is exhibited, and the exact condition is proved:

- A job queued for an old destination is cancelled by a settings change exactly when the
  write succeeds (`SettingCancelsIffWritten`). As the clock goes on it can still be charged
  exactly when the write failed, it has not expired, and today's budget suffices for it or
  it lives past midnight (`GoesOnIffStillDue`). A run from an empty database that sends it
  is in `SmsWitness.FailedWriteSendsOn`.
- An inbound text can be deleted while the durable table does not know it in two ways, and in
  no other. One whose number, text and timestamp are all empty equals the zero value of the
  map of delivered copies (`UnrememberedSkipsDeliveryIffEmpty`, `SmsWitness.EmptyTextIsLost`).
  Any other may be so lost exactly if it arrives under a path while a deletion under that path
  is under way (`LostIffTakenOver`, `SmsWitness.TextIsTakenOver`). A text identical to one
  still known under its path counts as known, and gets no second row.
- Recording a message leaves no forwarding job without an inbox row exactly when its copy
  was not known or there was no such job before: recognising a known copy returns before
  the clean-up (`RecordRetains`). `SmsWitness.OrphanOutlivesRecord` is a run that gets there.
- The number of segments counts units, but a character of two units cannot be cut in half.
  The count never exceeds what a text takes, and is exact exactly if filling part after part
  needs no more (`SegmentsAreFewestIff`). For any plain sender and timestamp, `CountFallsShort`
  gives a message that is forwarded and charged as two segments and does not go in two.
- A read that fails can manufacture a remedy, against internal/modem/link/link.go:83-85,
  exactly in these ways, as long as no other bearer is read in place of the data bearer
  (`RemedyIsManufacturedIff`): the modem is not found; a locked SIM or a
  missing registration goes unread and a layer above fails; or three flaps are counted, which
  missed reads bring about by hiding a stable session or by letting a failing tick pass
  (`MissedReadsRaiseFlapsIff`). One tick is enough (`OneMissedReadIsEnough`). A modem reset is
  manufactured only by not finding the modem (`ResetIsManufacturedIff`).
- `NoteRemedyApplied` is documented to count remedies that ran
  (internal/modem/link/link.go:185-193), but the service notes a remedy even when applying
  it returned early. The ladder counts what ran exactly when every remedy noted since the
  last stable tick ran (`LadderCountsRanIff`), and offers the rung that was earned exactly
  when one of them ran or none was noted (`RungIsEarnedIff`). `UnearnedReattach` is a run
  that dispatches a reattach though no bearer bounce ran; in it a recovery begins after the
  APN reconcile of the tick, or the ICCID is unread, as that tick would settle otherwise.
- Saving and loading the byte counter, at any point of a run of samples, is exact exactly
  when the session last observed has a name (`RestartRefinesIff`). With an empty bearer path
  its bytes count twice (`UnnamedSessionCountsTwice`). This is an input of `Observe`: the
  service passes D-Bus object paths, which are never empty.
- A crash that loses samples of a session that goes on counting loses no bytes exactly when
  the file already had that session, or the next sample is seen to start over, or the file's
  session had counted nothing (`CrashIsHarmlessIff`). Otherwise the new session has caught up
  with the old baseline under the same bearer path, and the baseline is lost: 100 bytes of 250
  in `CrashLosesBytes`. What a crash loses of any samples is in `CrashLoses`.
- The DNS parser does not check the 255-octet limit on names, that a compression pointer
  leads to a prior name, or that TXT data holds a character string (sections 2.3.4, 4.1.4 and
  3.3.14 of RFC 1035). The bytes it accepts though they are no strict message are exactly
  those with a first such flaw, which is located (`AcceptedUnlessFlawless`); a name that
  points to itself and a TXT record without data are accepted (`SelfPointerIsAccepted`,
  `NoTextIsAccepted`). The query builder makes a strict message exactly for names of at most
  253 bytes (`QueryIsStrictIff`).

## Model

| member | source | states |
|---|---|---|
| ApnConfig.MMRoundTrip | internal/apn/manager.go:517-561 | The attach-settings dictionary gives back the configuration it was made from iff the authentication type is supported, and keeps what the modem is told |
| ApnConfig.BlankPlan | internal/apn/manager.go:302-309 | Restoring the blank snapshot of a SIM swap writes exactly what configuring nothing writes, and is always restorable |
| ApnBackend.World.Call | internal/apn/manager.go:72-86 | One backend call: success took effect, an error may have, a dead context prevents it; the event records the backend it met |
| ApnManager.Manager.ResetRetry | internal/apn/manager.go:140-147 | Clears the attempt count, the schedule and the applied path, nothing else |
| ApnManager.Manager.Reconcile | internal/apn/manager.go:149-218 | Every branch: rejections and a blocked SIM touch no backend; otherwise a survey that stops only at a failed read, then agreement, refusal by the schedule, or one transaction, with the whole new memory |
| ApnManager.Manager.Pursue | internal/apn/manager.go:181-217 | An admitted request: what the survey, the three attempts, the backoff and the transaction make of the memory |
| ApnManager.Manager.ReadCurrent | internal/apn/manager.go:225-239 | Reads profile, attach settings and CID1 in this order and stops at the first failure |
| ApnManager.Manager.RecordSuccess | internal/apn/manager.go:210-216 | A success is remembered, the schedule restarts, and settings that met a changed SIM stay blocked |
| ApnManager.Manager.Undertake | internal/apn/manager.go:293-310 | What a transaction undertakes to restore: a pending state and snapshot are inherited, another SIM's snapshot never |
| ApnManager.Manager.Apply | internal/apn/manager.go:287-388 | The whole trace is a connection read, a forward part and, if it failed, a rollback to what was undertaken; a failed rollback leaves exactly that pending |
| ApnManager.Manager.Attempt | internal/apn/manager.go:310-388 | Success clears pending and records the read CID1; failure clears it only after a complete rollback |
| ApnManager.Manager.Forward | internal/apn/manager.go:326-386 | The forward calls come in the fixed order, each only after all before it went well (attach settings excepted); it ends early only at a call that failed or read back something else, or at cancellation |
| ApnManager.Manager.Detach | internal/apn/manager.go:326-337 | Success leaves autoconnect off, the bearer down and the modem deregistered, whatever drifts |
| ApnManager.Manager.Write | internal/apn/manager.go:338-353 | Profile, attach settings, CID1 and authentication are written to a modem that stays detached |
| ApnManager.Manager.ReadBack | internal/apn/manager.go:354-367 | Success means CID1 and the profile read back as written |
| ApnManager.Manager.Resume | internal/apn/manager.go:368-386 | Success means reattached, connected, CID1 still right after activation, and the original autoconnect policy committed |
| ApnManager.Manager.Rollback | internal/apn/manager.go:390-451 | Every call of a rollback: it either made all calls it could and committed nothing, or verified the restore, committed the original policy and reattached what was detached unless cancelled; it succeeds iff all of that did |
| ApnManager.Manager.Suspend | internal/apn/manager.go:397-408 | A rollback takes the link apart again first, even after Connect or a half-effective commit |
| ApnManager.Manager.Restore | internal/apn/manager.go:397-433 | The calls are the script, or only the profile if the link could not be taken apart; clean iff every call succeeded and read back equal to the snapshot, and in a steady world the backend then holds it, detached |
| ApnManager.Manager.RestoreModem | internal/apn/manager.go:410-421 | Attach settings, authentication, CID1 and its readback in this order, only while detached, whatever fails on the way; clean iff all but the attach settings went well |
| ApnManager.Manager.CommitOriginal | internal/apn/manager.go:434-438 | The commit carries the snapshot's autoconnect policy |
| ApnManager.Manager.Resurrect | internal/apn/manager.go:439-449 | Reattach, then reconnect iff that succeeded and the connection was active; neither takes effect once the operation is cancelled |
| ApnRuns.TransactionEvents | internal/apn/manager.go:287-451 | Every call of a transaction writes only the new settings (forward) or the snapshot's (rollback), to a detached modem, and commits only the undertaken policy |
| ApnRuns.FailureIsAllOrNothing | internal/apn/manager.go:311-325 | After any failed transaction, either the original policy was committed over untouched credentials or a restore that read back, or exactly the snapshot to restore is still pending |
| ApnRuns.StepIsDisciplined | internal/apn/manager.go:326-449 | Every CID1 and authentication write of a reconcile meets a detached modem, and no reattach or connect takes effect after cancellation |
| ApnRuns.RunIsDisciplined | internal/apn/manager.go:149-451 | The same for every call of every run, whatever the backends answer |
| ApnRuns.SIMSwapIsolation | internal/apn/manager.go:168-177 | With a SIM other than the last applied or the pending one, everything written is blank or the new request's own; only blank if it is not the last applied |
| ApnRuns.StepKeepsChain | internal/apn/manager.go:293-325 | A reconcile keeps a pending state, keeps its snapshot or blanks it, commits only its policy, and drops it only after that commit succeeded |
| ApnRuns.PendingChain | internal/apn/manager.go:293-325 | Over any failed transactions, rollbacks, retries and SIM changes the pending state is the first one, the snapshot the first or blank for good, and the chain can only end in a successful commit of the first policy |
| ApnRuns.ChainOpens | internal/apn/manager.go:289-310 | A chain opens with the state its own transaction read, and with what it surveyed, or blank for a changed SIM |
| ApnRetry.FreshCounts | internal/apn/manager.go:164-166 | The step that starts afresh (reset, changed request, success) counts its own failed attempt as the first and schedules the next 30 s later; otherwise nothing is counted or scheduled |
| ApnRetry.StepCounts | internal/apn/manager.go:201-210 | Any other reconcile counts its attempt and schedules the next, or only reads and leaves the schedule alone |
| ApnRetry.BoundedRetry | internal/apn/manager.go:201-210 | Of one sequence, from a fresh start with its own attempt to the success that may end it, at most three transactions run, and every other reconcile after the first only reads |
| ApnRetry.RetryGap | internal/apn/manager.go:206-209 | Of two attempts of one sequence, the first step's own included, the later begins at least the backoff after the earlier ended: 30 s after the first failure, 60 s after the second |
| ApnRetry.FirstSequence | internal/apn/manager.go:164-166 | Whatever a new process is first asked for, the calls from the first accepted one on are one sequence |
| ApnRetry.ProcessRetriesBounded | internal/apn/manager.go:201-210 | From the start of a process, as long as the same is asked for and nothing succeeded before, at most three transactions fail |
| ApnRetry.ProcessRetryGap | internal/apn/manager.go:206-209 | In the same runs an attempt begins at least the backoff after any failure before it |
| ApnRetry.SuccessConverges | internal/apn/manager.go:189-217 | Applied and OK leave the memory converged on the request |
| ApnRetry.Convergence | internal/apn/manager.go:186-200 | After a success, while the surveys that get through read what it left, repeating the request only reads, and the answer depends only on rejection and on the survey getting through |
| ApnRetry.ClearedSIMStaysBlocked | internal/apn/manager.go:172-176 | After a cleared SIM change, over any run of resets and requests for the same SIM and settings, no backend is called and the answer is Unconfigured |
| ApnOutcomes.AppliedWrites | internal/apn/manager.go:326-388 | A transaction answered with Applied or ICCIDChangedClear made exactly these calls after the survey: state, autoconnect off, disconnect, deregister, profile, attach settings, CID1 and credentials with the values of the request (blank after a SIM swap), both readbacks, reattach, connect, CID1, commit of the first policy; in a steady world the modem was reattached with them in place |
| ApnOutcomes.FailureRestores | internal/apn/manager.go:390-451 | If a failed transaction that wrote anything leaves nothing pending, profile, attach settings, credentials and CID1 of the original were written back, read back and committed, in a steady world the backend held them, and the modem was reattached and reconnected as it had been unless cancelled or never detached |
| ApnOutcomes.FailureHasCause | internal/apn/manager.go:310-451 | A transaction that failed after reading the state ended with a forward call that failed or read back something else (attach settings only if cancelled); all calls up to it ran under the operation, those of the rollback under their own contexts; and the rollback made every call it could and committed iff all went well |
| ApnOutcomes.UnrestorableIsLeft | internal/apn/manager.go:307-309 | A transaction that read the state stops there iff the credentials to go back to hold a character that cannot be written, and then changes nothing |
| ApnOutcomes.FailureRetains | internal/apn/manager.go:293-325 | What a failed transaction leaves pending: the first policy, and the first snapshot, its own, or the blank one for another SIM |
| ApnOutcomes.UntouchedIff | internal/apn/manager.go:150-177 | No backend is called iff there is no SIM, the manager is busy, the caller cancelled, the path empty, a value unsafe or the method unknown, or the SIM was cleared for these settings; and what is answered then |
| ApnOutcomes.SurveyDecides | internal/apn/manager.go:186-203 | After a full survey, success is answered without a change iff no failure counts, nothing is pending and profile, CID1 and attach settings agree with the request as the code demands; else it is refused only after three failures or before the scheduled time, and tried only within them |
| ApnOutcomes.FailureIsCounted | internal/apn/manager.go:164-210 | A failed attempt is one more of the same request or the first of another, and the next comes 30, 60 or 120 s after it ended |
| SmsText.CountSegments | internal/sms/forward.go:51-77 | The loop returns the fewest parts by units: 160 or 153 septets each in GSM-7 if the text fits it, else 70 or 67 UTF-16 units |
| SmsText.SegmentsAreFewest | internal/sms/forward.go:51-77 | The same of the function the other proofs use |
| SmsParts.SegmentsAreFewestIff | internal/sms/forward.go:51-77 | Over all ways to cut a text between characters, no fewer parts than the count ever do, and that many do iff filling each part as far as it goes needs no more |
| SmsParts.SeptetsOf | internal/sms/forward.go:52-64 | Of the printable ASCII characters and the Euro sign, nine take two septets, the back quote none, and all others one |
| SmsParts.CountFallsShort | internal/sms/forward.go:51-77 | The failing case, for any plain sender and timestamp: a message with an escaped character on the boundary of its body is forwarded and charged as two segments, and does not go in two |
| SmsText.ForwardText | internal/sms/forward.go:37-47 | A message is forwarded iff the destination is valid and on, it is not its sender, the text lacks the marker and the body fits ten segments |
| SmsText.ForwardedBodyIsNotForwarded | internal/sms/forward.go:37-47 | A message that quotes a forwarded body anywhere is never forwarded, to any destination |
| SmsInbox.NewestFirstSorts | internal/sms/store.go:138-170 | The query's order is by time of receipt, newest first, and keeps all counts |
| SmsInbox.NewestFirstPermutes | internal/sms/store.go:170 | The query returns exactly the rows of the table |
| SmsInbox.RankIsPlace | internal/sms/store.go:138 | A row stands in the sorted table at the number of rows newer than it (later time, or same time and inserted later) |
| SmsInbox.OverflowIsRank | internal/sms/store.go:138 | A row is beyond the limit iff a hundred rows are newer |
| SmsInbox.PurgeIsRetained | internal/sms/store.go:138 | The delete statement leaves exactly the rows with fewer than a hundred newer ones that are younger than thirty days, in order |
| SmsInbox.RetainedBounded | internal/sms/store.go:18-21 | The inbox never exceeds a hundred rows |
| SmsStore.Store.Record | internal/sms/store.go:95-148 | One transaction: a known copy changes nothing; otherwise the row, the copy, an admitted and eligible job, retention and pruning, or nothing at all |
| SmsRecords.RecordStores | internal/sms/store.go:95-148 | A copy recorded before changes nothing; any other message gets a row with its sender, text, timestamp and time of receipt (kept iff fewer than a hundred are newer), its copy, and a job that quotes it and lives a day iff it may be forwarded, written out; everything else stays but for age, number and orphans |
| SmsStore.Store.ForgetModem | internal/sms/store.go:150-153 | Drops the copy of one path, or fails |
| SmsStore.Store.List | internal/sms/store.go:155-184 | Commits the age limit and pruning, and returns the newest rows first with their job states; a failed query may leave the clean-up committed |
| SmsStore.Store.Delete | internal/sms/store.go:189-210 | Removes row and job together, and reports whether there was a row |
| SmsStore.Store.RecoverForward | internal/sms/store_forward.go:15-19 | A send interrupted by a crash becomes unknown, never queued |
| SmsStore.Store.ConfigureForward | internal/sms/store_forward.go:21-45 | Activates a changed destination at the whole second and cancels exactly the queued jobs for others |
| SmsStore.LapsesAreSwept | internal/sms/store_forward.go:55-63 | The three statements a reservation starts with amount to one sweep by age, expiry and destination |
| SmsStore.Store.ReserveForward | internal/sms/store_forward.go:47-108 | One transaction: sweep, then charge and reserve the first queued job by (creation, id) iff the day's budget allows |
| SmsRecords.ReservePicks | internal/sms/store_forward.go:47-108 | A reservation that picks a job marks exactly what lapses, picks the oldest queued job left, to a valid destination other than the own number, and charges today's budget of ten |
| SmsRecords.ReserveNothing | internal/sms/store_forward.go:47-108 | A reservation that picks none marks the same, and there was nothing to send: destination unreachable, queue empty, or the next job over today's ten segments |
| SmsRecords.SettingWrites | internal/sms/store_forward.go:21-45 | A written setting is activated at the whole second if it changed, and cancels exactly the queued jobs for others |
| SmsRecords.OutcomeIsRecorded | internal/sms/store_forward.go:15-19 | Of all jobs, an outcome changes only the one it is for, if that is being sent; a recovery leaves exactly those being sent in doubt |
| SmsRecords.ListingShows | internal/sms/store.go:155-184 | A listing drops exactly the rows older than thirty days and orphaned jobs, and shows the first hundred of the rest, newest first, with their job states |
| SmsStore.Store.FinishForward | internal/sms/store_forward.go:110-117 | Only a job in sending becomes sent or unknown |
| SmsService.Service.ProcessOne | internal/sms/manager.go:200-275 | Handling one modem object gets exactly as far as object, memory and faults demand, and is a run of the matching protocol steps; what is still being assembled or is binary is left alone, a report or an own message is deleted with no change to the tables |
| SmsService.Service.HandleInbound | internal/sms/manager.go:234-274 | An inbound text is recorded before its deletion is requested, remembered iff the deletion fails, and released iff it succeeds |
| SmsService.Service.DrainReceived | internal/sms/manager.go:178-198 | A drain is a run of the protocol that handles every listed path in order, each as the state it meets demands |
| SmsService.Service.Accept | internal/sms/manager.go:239-266 | A remembered copy is never delivered again; any other is recorded in the durable table before it may be deleted |
| SmsService.Service.RemoveCopy | internal/sms/manager.go:243-274 | Deletion succeeds and forgets, or fails and remembers the identity; a failed one may still remove the object |
| SmsService.Service.ReleaseCopy | internal/sms/manager.go:108-114 | Releasing the durable identity may fail without further effect |
| SmsService.Service.DeliverIncoming | internal/service/service.go:859-881 | Delivery is one committed record under the current destination, or nothing |
| SmsService.Service.SetForwardTo | internal/service/service.go:325-341 | Success sets the destination in memory and in the table alike; failure turns forwarding off and leaves the tables |
| SmsService.Service.ForwardOne | internal/service/sms_forward.go:25-77 | Off or a failed reservation changes nothing; otherwise the reservation of the store, one hand-over to the setting in force unless shutting down, and the outcome recorded as sent only if it was |
| SmsService.Service.Start | internal/sms/store_forward.go:15-19 | A start recovers interrupted jobs and remembers nothing but the tables, or fails and changes nothing |
| SmsJobs.StepEvolves | internal/sms/store_forward.go:15-117 | Every step of the pipeline moves jobs only along queued to sending, expired or cancelled and sending to sent or unknown, and starts only the job it charges |
| SmsForwarding.ReachableIsSound | internal/sms/store_forward.go:47-117 | The queue, budget, send and inbox invariants hold in every reachable state |
| SmsForwarding.BudgetConservation | internal/sms/store_forward.go:75-103 | In every reachable state each day's budget is the sum of the segments of all jobs ever reserved that day, and at most ten |
| SmsForwarding.NoRefund | internal/service/sms_forward.go:47-64 | No deletion, failure, reconfiguration or crash ever lowers a day's budget |
| SmsForwarding.AtMostOnceForwarding | internal/service/sms_forward.go:25-77 | No job is handed to the modem twice, with crashes anywhere; each was charged first and went to the destination set at that moment |
| SmsForwarding.JobsOnlyMoveForward | internal/sms/store_forward.go:58-117 | Over any run a job's state only moves forward and a gone job never returns |
| SmsForwarding.NeverStartedAgain | internal/sms/store_forward.go:47-117 | A job that is no longer queued is never charged or handed over later |
| SmsForwarding.RecordRetains | internal/sms/store.go:118-144 | After a record no job is orphaned iff the copy was not known or none was orphaned before; a new row leaves at most a hundred, none older than thirty days |
| SmsWitness.OrphanOutlivesRecord | internal/sms/store.go:118-144 | The failing case, for any fit message: a run from an empty database in which a sent job outlives its row through the record of its own copy |
| SmsForwarding.ListingRetains | internal/sms/store.go:161-170 | After a listing every job belongs to a row or is being sent, and the rows listed are the inbox's, newest first |
| SmsOrigins.CreationsWereReceived | internal/sms/manager.go:200-275 | Over every run, a creation goes back to a reception of an object that is not being assembled, sent or sent, no report or submission and not binary, with its number, text and time |
| SmsOrigins.CopiesWereReceived | internal/sms/store.go:125-129 | So does every copy in the durable table, under its path |
| SmsOrigins.RowsWereReceived | internal/sms/store.go:120-123 | So does every row of the inbox, with sender, text, timestamp, time of receipt and unread |
| SmsOrigins.RowHoldsItsMessage | internal/sms/store.go:120-123 | In every reachable state the row under the id of a creation has the sender and the text of its identity |
| SmsOrigins.JobsWereReceived | internal/sms/store.go:130-137 | So does every job: it quotes that text with marker, sender and timestamp, is bound for the setting of that moment, to which the text might be forwarded, and expires a day later |
| SmsOrigins.HandedOverWasReceived | internal/service/sms_forward.go:25-77 | Whatever is handed to the modem quotes a text received less than a day before its reservation, and goes to a valid number that was the setting both times and is neither its sender nor the vehicle |
| SmsOrigins.SettingIsTaken | internal/service/service.go:325-341 | A valid number is taken as destination, anything else or a failed write turns forwarding off; activation is at the whole second of a change |
| SmsOrigins.RestartForgets | internal/sms/store_forward.go:15-19 | After a restart forwarding is off, no copy is remembered, and exactly the jobs being sent are in doubt |
| SmsDestination.ReservationIsSafe | internal/sms/store_forward.go:47-108 | A reserved job is bound for the setting in force, unexpired, first among the queued, not for its sender nor between it and the own number, charged, and quoting it is never forwarded |
| SmsDestination.SettingCancelsIffWritten | internal/service/service.go:325-341 | A settings change cancels a job for another destination iff its write succeeds; otherwise the job stays queued and forwarding is off |
| SmsDestination.GoesOnIffWriteFailed | internal/service/service.go:325-341 | In any reachable state, a job queued for another destination at a settings change is charged in some continuation, with the clock going on, iff the write failed and at some time to come it is sendable |
| SmsDestination.GoesOnIffStillDue | internal/service/service.go:325-341 | The same read off the tables at the change: iff the write failed, the job has not expired, and today's budget suffices for it or it lives past midnight |
| SmsDestination.ChangedDestinationIsFinal | internal/sms/store_forward.go:38-63 | After a committed change a job for the old destination is never charged or sent, whatever the setting becomes |
| SmsWitness.FailedWriteSendsOn | internal/service/service.go:333-336 | The failing case, for any fit message: a run from an empty database with a failed write and the setting back, in which the job is handed over |
| SmsWitness.BothHappen | internal/sms/forward.go:37-47 | Both failing runs exist, for a message that is fit to be forwarded |
| SmsExactlyOnce.ReachableCopies | internal/sms/manager.go:239-274 | In every reachable state what is remembered or about to be deleted is in the durable table, and what is there was created |
| SmsExactlyOnce.NeverDeletedUnrecorded | internal/sms/manager.go:253-271 | A deletion is requested for a non-empty identity only after the record of the identity that was read committed |
| SmsTakenOver.LostIffInDeletion | internal/sms/manager.go:204-275 | In any reachable state an inbound, non-empty, unrecorded text may be deleted unrecorded iff a deletion under its path is under way |
| SmsTakenOver.LostIffTakenOver | internal/sms/manager.go:204-275 | A text that arrives unrecorded may be lost iff it arrives into a deletion under way under its path |
| SmsTakenOver.TookOver | internal/sms/manager.go:204-275 | An unrecorded text under a path with a deletion under way arrived there after that deletion had begun |
| SmsWitness.TextIsTakenOver | internal/sms/manager.go:215-220 | The failing case: a run from an empty database in which the deletion of a status report takes a text |
| SmsExactlyOnce.UnrememberedSkipsDeliveryIffEmpty | internal/sms/manager.go:239-251 | A copy nobody remembers goes to deletion undelivered iff its identity is all-empty |
| SmsWitness.EmptyTextIsLost | internal/sms/manager.go:239-251 | The failing case: a run from an empty database that deletes an all-empty text and records nothing |
| SmsExactlyOnce.ExactlyOnce | internal/sms/manager.go:200-275 | While a copy persists, whatever the manager was doing when it came and over any interleaving of drains, failures and restarts, exactly one row is created for it iff it ends up recorded and was unknown at some time |
| SmsExactlyOnce.DeletedAfterExactlyOneRow | internal/sms/manager.go:253-274 | When a copy that came neither to a known identical one nor into a deletion is deleted, exactly one row has been created for it |
| Link.LowestFailingLayer | internal/modem/link/link.go:206-267 | The local check reports exactly the lowest failing layer with that layer's remedy, and nothing iff no layer fails |
| MissedReads.MissedReadsPassLocally | internal/modem/link/link.go:206-267 | Of the local check only: if a snapshot with reads missed, the modem found, fails it, the full one fails it at the same layer or a lower one |
| MissedReads.MissedReadsRaiseFlapsIff | internal/modem/link/link.go:146-183 | Missed reads make the count of flaps exceed the full one at some time iff some tick hides a stable session while flaps are counted, or passes as a flap although it fails when read in full |
| MissedReads.ManufacturedFailureWasRaised | internal/modem/link/link.go:83-85 | If missed reads turn a healthy verdict into a failure, the modem was not found, or it is a liveness failure and one of those ticks is to blame |
| MissedReads.RemedyIsManufacturedIff | internal/modem/link/link.go:83-85 | Missed reads bring a remedy where the full history asks for none iff the modem was not found, or a lock or missing registration went unread and a layer above fails or three flaps are counted, or the link is healthy and three flaps are counted |
| MissedReads.ResetIsManufacturedIff | internal/modem/snapshot.go:55-63 | Missed reads bring a modem reset iff the modem was there, its hardware fine, and it was not found |
| MissedReads.OneMissedReadIsEnough | internal/modem/modem.go:262-267 | The failing case: one tick out of coverage with the registration unread asks for a bearer bounce; a healthy modem not found asks for a reset |
| MissedReads.MissedReadManufacturesRemedy | internal/modem/link/link.go:83-85 | The failing case for liveness: six ticks of a healthy link, with one session not read, ask for a bearer bounce |
| Link.FlapsAreShortReconnects | internal/modem/link/link.go:146-183 | Of two consecutive ticks, the later passing: a flap is a reconnect into a session under 120 s, a stable tick a session of at least 120 s |
| Link.ThreeFlapsFail | internal/modem/link/link.go:160-183 | With no layer failing, the link fails iff three flaps came since the last stable tick, and is offered a bearer bounce, or a reattach after any liveness remedy |
| Link.ATCheckIffSuspicious | internal/modem/link/link.go:283-297 | The modem is asked over AT iff its context, attachment or address looks wrong |
| Link.Assessor.Assess | internal/modem/link/link.go:146-183 | The verdict is that of the history: local failure first, else liveness iff three flaps came since the last stable tick, with the rung of the remedies noted since then |
| Link.Assessor.NoteRemedyApplied | internal/modem/link/link.go:194-203 | Only a real liveness remedy advances the ladder |
| Link.OneMoreEvent | internal/modem/link/link.go:146-203 | How an event moves the counts: a flap adds one, a stable tick starts over, other failures and remedies change nothing |
| Link.LadderCountsRanIff | internal/modem/link/link.go:185-203 | The ladder is never behind the remedies that ran since the last stable tick, and equals them iff every liveness remedy noted since then ran |
| Link.RungIsEarnedIff | internal/modem/link/link.go:79-81 | The remedy a liveness failure is offered is the one the remedies that ran deserve iff one ran or none was noted |
| RemedyPolicy.Policy.Weigh | internal/service/service.go:1980-1998 | A failure is confirmed iff the tick before failed at the same layer with a real remedy |
| RemedyPolicy.Policy.HandleAssessment | internal/service/service.go:1978-2022 | Dispatches iff the failure is confirmed and its remedy is not cooling down since its last dispatch, and notes it whether or not it ran |
| RemedyPolicy.Policy.ApplyRemedy | internal/service/service.go:2024-2059 | A remedy runs iff no recovery is under way, the modem is enabled and, for a reattach, found; a reset is declined in its own handler (internal/service/service.go:1320-1326) |
| RemedyPolicy.Policy.Tick | internal/service/service.go:2190-2254 | One status check on both histories; a settling APN transaction breaks the evidence |
| RemedyPolicy.WatchIsFaithful | internal/service/service.go:1978-2022 | In every run each dispatch is the decision on a verdict |
| RemedyPolicy.DispatchIsConfirmed | internal/service/service.go:1986-1998 | Every dispatch repeats the previous tick's layer, and a modem reset answers a hardware failure only |
| RemedyPolicy.DispatchedIff | internal/service/service.go:1978-2022 | A tick dispatches a remedy iff it asks for it, the tick before asked for one at the same layer, and that remedy was not dispatched for five minutes, or thirty for a modem reset |
| RemedyPolicy.CooldownApart | internal/service/service.go:2000-2008 | Two dispatches of a remedy are at least its cooldown apart: 300 s, or 1800 s for a modem reset |
| RemedyPolicy.DispatchesPerWindow | internal/service/service.go:45-52 | Any interval of time has at most its length divided by the cooldown, and one more, dispatches of a remedy |
| RemedyPolicy.RunKeepsCooldowns | internal/service/service.go:1978-2022 | Cooldown, confirmation and, for any interval of time, the half-hour bound on modem resets over every run of ticks |
| RemedyPolicy.FourFlapsAct | internal/service/service.go:1980-2022 | Four flapping ticks in a row with no liveness remedy cooling down yield a dispatch |
| RemedyPolicy.UnearnedReattach | internal/service/service.go:2012-2021 | The failing case: a run of six ticks that dispatches a reattach though the bearer bounce before it never ran |
| DataUsage.Counter.constructor | internal/datausage/counter.go:78-120 | Memory starts as the file says; a missing file starts from zero, an unnamed session from no baseline |
| DataUsage.Counter.Observe | internal/datausage/counter.go:133-158 | One reading is folded in; memory becomes dirty iff the baseline moved, and clean memory always agrees with the file but for the start date |
| DataUsage.Counter.Flush | internal/datausage/counter.go:181-196 | Writes iff dirty; after success loading gives the memory back if the session has a name, after failure the file is as before |
| DataUsage.Counter.Backstop | internal/datausage/counter.go:168-177 | Writes iff dirty and six hours have passed since the last write |
| DataUsage.ReadingAdds | internal/datausage/counter.go:133-158 | One reading adds the difference if it is of the same bearer and neither counter went back, and else all of it, to the roaming totals too while roaming, modulo 2^64 |
| DataUsage.Telescopes | internal/datausage/counter.go:133-158 | The deltas add up to each run's last reading, less a continued baseline |
| DataUsage.BytesConserved | internal/datausage/counter.go:133-158 | After any samples the totals are the starting totals plus each run's last reading less the baseline, modulo 2^64 |
| DataUsage.RoamingWithinTotals | internal/datausage/counter.go:150-157 | If roaming totals are within the totals, they stay so after any samples, absent overflow |
| DataUsage.RoamingWithinFile | internal/datausage/counter.go:22-26 | After any lives of the service, with any saves, shutdowns and crashes, roaming totals do not exceed totals in the file, absent overflow |
| DataUsage.RoamingWithinTotalsForGood | internal/datausage/counter.go:22-26 | Nor do they after any sample of any such life |
| DataUsage.DroppedSamplesCountAnyway | internal/datausage/counter.go:133-158 | Dropping the intermediate samples of a run changes neither totals nor baseline |
| DataUsage.SavedIsLoaded | internal/datausage/counter.go:87-120 | Loading what was saved gives the memory back iff the session has a name |
| DataUsage.RestartRefinesIff | internal/datausage/counter.go:87-196 | Observing, saving, loading and observing on equals observing it all, whatever follows, iff the session last observed has a name |
| DataUsage.UnnamedSessionCountsTwice | internal/datausage/counter.go:108-119 | The failing case: an unnamed session's bytes are counted again after a restart |
| DataUsage.CrashLosesNothing | internal/datausage/counter.go:133-158 | A crash that loses samples of a named session whose reading is already in the file, and which goes on counting, loses no bytes once its next sample arrives |
| DataUsage.CrashLoses | internal/datausage/counter.go:87-158 | Whatever the file holds, if anything, and whatever samples are lost: the totals differ by the last readings of the runs that ended among them, and the baseline the next sample is taken to go on from |
| DataUsage.CrashIsHarmlessIff | internal/datausage/counter.go:87-158 | Losing samples of one session, which goes on counting, changes no byte iff the file had that session, or the next sample is seen to start over, or the file's session had counted nothing |
| DataUsage.CrashLosesBytes | internal/datausage/counter.go:133-145 | The failing case: a session that begins after the last save and catches up with its baseline of 100 bytes counts 50 of its 150 bytes |
| Connectivity.RawState | internal/modem/connectivity/classifier.go:130-147 | An observation shows exactly one state, each defined by its own condition on the inputs, and never the unknown one |
| Connectivity.Classifier.Classify | internal/modem/connectivity/classifier.go:79-106 | The log keeps what was observed and a state it shows; what is committed is what hysteresis owes the log, and `pendingSince` is the start of the maximal run of equal raw states |
| Connectivity.Classifier.Force | internal/modem/connectivity/classifier.go:123-127 | An override is committed at once and begins a run |
| Connectivity.ChangesExactlyWhenHeld | internal/modem/connectivity/classifier.go:91-104 | Outside startup and overrides the committed state changes iff the raw state was held without interruption for that change's delay |
| Connectivity.CommitsWhatWasShown | internal/modem/connectivity/classifier.go:79-171 | For each state: after startup it is committed iff every observation showed it, without override, for 60 s (connected, denied), 180 s (disconnected after connected) or at all; the first observation is taken at once |
| Connectivity.DebouncesHold | internal/modem/connectivity/classifier.go:40-47 | Going online follows 60 s of uninterrupted raw connection, losing a connection 180 s of uninterrupted raw disconnection |
| Connectivity.HeldLongIsCommitted | internal/modem/connectivity/classifier.go:152-171 | Any raw state held for 180 s is committed |
| Connectivity.OnlineMovesApart | internal/modem/connectivity/classifier.go:40-47 | However the raw state flaps, a move to connected comes at least a minute after the connection was last committed |
| Dns.SkipDNSName | internal/health/probe.go:291-315 | Ends where a well-formed name ends, and fails iff none is written there; stays in bounds and terminates |
| Dns.HighBits | internal/health/probe.go:300-305 | The two mask tests on a length byte split it at 192 and at 64 |
| Dns.ReadText | internal/health/probe.go:272-284 | The character strings of the record data run together, or failure iff they do not fill it exactly |
| Dns.ParseTXTAnswers | internal/health/probe.go:236-289 | Succeeds iff the message is a well-formed encoding of its questions and records and then some bytes, and returns the concatenated strings of each TXT/IN record in order |
| Dns.ReadAnswers | internal/health/probe.go:236-289 | The loops compute what the reading of the whole message says |
| Dns.NameReadsBack | internal/health/probe.go:291-315 | Whatever name is read is well formed and written there |
| Dns.NameWritten | internal/health/probe.go:291-315 | A well-formed name that is written somewhere is the one read there |
| Dns.RecordReadsBack | internal/health/probe.go:256-286 | A record read is well formed and written there, TXT data included |
| Dns.RecordWritten | internal/health/probe.go:256-286 | A well-formed record written somewhere is the one read there |
| Dns.ParsingInvertsEncoding | internal/health/probe.go:236-289 | A message reads as a value iff the value is well formed and encodes to the message; readings are unique |
| Dns.RecordBytes | internal/health/probe.go:256-286 | A record is name, type, class, four bytes, data length and data, and is answered iff its type is 16 and its class 1 |
| Dns.TrailingBytesSayNothing | internal/health/probe.go:286-288 | Bytes after the counted records change no answer |
| Dns.AcceptedUnlessFlawless | internal/health/probe.go:236-315 | Accepted bytes are those of a strict message iff walking them finds no first flaw: a pointer that leads to no prior name, a name over 255 octets, or empty TXT data |
| Dns.SelfPointerIsAccepted | internal/health/probe.go:300-304 | The failing case: a name that points to itself is accepted, and is the first flaw |
| Dns.NoTextIsAccepted | internal/health/probe.go:272-285 | The failing case: a TXT record without data is accepted and answered with the empty string |
| Dns.SplitJoins | internal/health/probe.go:337 | The labels of a name joined by dots are the name, and none holds a dot |
| Dns.JoinSplits | internal/health/probe.go:337 | Splitting is the only such decomposition |
| Dns.BuildDNSQueryType | internal/health/probe.go:322-348 | A query is built iff every label has 1 to 63 bytes; its bytes are the id, the flags for recursion, the counts, the labels, the type and class 1, and it reads back as the one question with those labels |
| Dns.QueryIsStrictIff | internal/health/probe.go:337-344 | A query that is built is strict iff the name has at most 253 bytes |

## Left out

- Parsing of the AT+CGDCONT? reply (`parseCID1`), the stand-alone `Reattach`, and the text of AT commands: CID1 and authentication are values.
- Timeouts are contexts that may expire at any call; a clock that runs backwards is not modelled for the APN manager.
- The steady world excludes other writers of the profile and of CID1; everything except the claim that the backend itself holds the restored snapshot is proved without it.
- Goroutines: every step is atomic under the lock the code holds for it; losing the race for the APN manager's lock is the parameter `contended`.
- SQLite and the filesystem: transactions and the replacement of the counter's file are atomic, a commit that fails has no effect, and write-ahead logging, directory syncing and permissions are not modelled.
- SHA-256 and JSON: the fingerprint of a copy is its identity itself. Random ids are ids not drawn before. Phone-number validity is a parameter. RFC 3339 parsing and formatting are data of the message.
- Text is a sequence of Unicode scalar values: invalid UTF-8 is not modelled.
- The methods of `SmsService` change the modem's store only by their own calls; objects that come and go in between are steps of `SmsProtocol`.
- The checks before a reservation that only return early (modem enabled, SIM present, registered at home), creating the outbound object inside `Send`, and the 10-second ticker.
- `MarkRead` and the read flag, unread counts, notifications and all publishing.
- RemedyIsManufacturedIff: of a bearer or an Interface property that goes unread it covers only that the bearer's values are missed; `DataBearer` may then return another bearer that has an interface (internal/mm/bearer.go:98-146), whose values are outside the model.
- What a remedy does once it runs, whether it succeeds, and the cancellation of its context; `Reason` strings of assessments; the reachability probe's back-off.
- The GPS monitor, SIM PIN handling, the modem recovery ladder, health, USB, GPIO and Redis glue.
- A random DNS id is a parameter; resolver addresses and the network exchange.
- FailureIsAllOrNothing: attach settings are best effort in the code and carry no guarantee here.
- Counter.Observe: the start date `since` and the log messages are carried along, not interpreted.

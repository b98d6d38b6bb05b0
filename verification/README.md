# Model service: verified model

A Dafny model of the parts of the model service whose correctness depends on many callers,
on many statements, or on arithmetic at the edge of a machine type, with proofs of what
those parts keep. `dafny verify dfyconfig.toml` checks all of it.

## What is modelled

**Import tasks.** `WorkTask` is the pure task with its three transitions. `TaskRows` is the
table: each store method is one guarded statement on one row, and reads the database clock
twice, once in its guard and once when it writes. `LeaseRuns` quantifies over every sequence
of statements on a row, by any number of workers and operators, at any clock readings.
`ImportWorkers` is the whole protocol: workers that may stop anywhere, lose a lease, or lose
the reply to a statement that took effect, beside operators who reset failed tasks and all
other writers of the catalog. `ImportTurns` says what one turn of a worker at one task has to be, by the replies it gets,
and what follows of it; `ImportLoop` is the worker's loop as a program, whose statements are
shown to be moves of that protocol and whose turns are shown to be such turns.

**Models, versions, artifacts.** `Catalog` has the three tables and all of their writers as
they stand when they commit, and the store methods as code. `RowLocks` takes the
multi-statement writers apart into the statements that take row locks; uncommitted writes
are invisible, and any number of transactions interleave; runs of it are shown to be
histories of `Catalog`'s writers. `Deletion` is the body of the
protected deletion with its batches of 256.

**Registrations and bundles.** `Registration` has the status machine of trained artifacts
and the transaction that completes one; `Prepare` has frozen defaults and idempotent
creation; `BundleImport` is the race for a model, version and task under one key, and
`BundleCall` is one caller's code in that race.

`Transitions` says once what a run of such a machine is, that what every step keeps holds
all along it, and what it is for actions to lead from one state to another.

**Archive facts.** `ArchiveFacts` is the streaming pass over a tar archive, in `int64`
arithmetic that the verifier checks for overflow, and `ArchiveMembers` what that pass makes of
names and kinds, told over the headers. `JsonFacts` is the recursive check over
decoder tokens, `WeightLayout` the layout inspection, `FactsValidation` the file clauses of
the response validator, `Paths` and `Orders` the path rule and string order that they share.
`ImportSizing` is the storage estimate.

## Claims that fail, with the exact condition

- *A deleted model stays deleted.* It does not: the outer UPDATE of `MarkModelVersionReady`
  checks no status after a lock wait, so a MarkReady under way when a deletion commits can
  mark the deleted model ready. `RowLocks.DeletedModelComesBack` is such a run. The deletion
  is final exactly when no MarkReady under way holds its version row, or has found it in its
  snapshot while the row is pending, importing or in error
  (`RowLocks.FinalExactlyWithoutMarkReady`, and for runs
  `RowLocks.DeletionIsFinalExactlyWhen`).
- *A repeated Prepare never conflicts.* It never does once its caller has seen the
  registration (`Prepare.LateReplayNeverConflicts`). A caller whose lookup came before the
  row was inserted resolves the defaults again, and conflicts exactly when they are no
  longer the ones the row froze (`Prepare.EarlyLookupConflictsExactlyOnNewDefaults`);
  `Prepare.RepeatedPrepareConflicts` is such a run.
- *The quantity covers the estimate.* It is the least covering number of GiB exactly up to
  MaxInt64 - (2^30 - 1); above that the sum wraps and the quantity is negative
  (`ImportSizing.QuantityIsLeastCover`), and the estimator does return such values
  (`ImportSizing.EstimateCanOverflow`).
- *The SQL claim is the pure claim.* The statement checks neither the owner nor the lease
  length, so it refines the pure one exactly when the owner is non-empty and the lease is at
  least a microsecond (`LeaseRuns.ClaimRefines`); the converse needs the retry delay to have
  passed and both counters to fit their columns (`LeaseRuns.ClaimConverse`).
  `LeaseRuns.ClaimsDiffer` has a claim that fails on each side.

## Assumptions

- One tenant; every statement of the source is scoped to its tenant.
- The tables keep what `migrations/` declares: unique (tenant, name), (tenant, model_id)
  where it is not empty, (tenant, version name within a model) and (tenant, idempotency key), one artifact per version, hexadecimal
  digests, non-negative sizes, and foreign keys.
- A statement's guard reads the clock no later than its assignments do, and a lease is
  counted in whole microseconds.
- SHA-256, the JSON lexer, json.Valid and json.Unmarshal are arbitrary functions. Equal
  request fingerprints mean equal requests. New UUIDs are new.
- A tar stream is what the tar reader returns: for each header the bytes it consumed before
  it, and for each member the bytes it delivered. The limiting reader hands out at most one
  byte beyond the object's size.
- Row locks conflict as PostgreSQL's FOR UPDATE, FOR NO KEY UPDATE and FOR KEY SHARE do, and
  a statement that has waited checks its row again.
- Strings are bytes, one character each; paths are cleaned as Go's path.Clean documents.

## Model

| member | source | states |
|---|---|---|
| LeaseRuns.OnlyTheHolderWrites | internal/data/postgres/model.sql.go:14-20 | a renew, bind or terminal write takes effect only for the owner and epoch of the newest claim, and between the two only that lease's renews and binds took effect |
| LeaseRuns.HolderMatchesRow | internal/data/postgres/work_store.go:138-304 | a row is importing exactly while a claim is unreleased, and then carries that claim's owner, epoch and attempt number |
| LeaseRuns.EpochCountsClaims | internal/data/postgres/model.sql.go:46-54 | the epoch is the number of claims that took effect: each raises it by exactly one and nothing else moves it |
| LeaseRuns.StaleEpochsAreFenced | internal/data/postgres/model.sql.go:653-659 | once a newer claim took effect no statement with an older epoch ever does again, operator resets included |
| LeaseRuns.CompleteIsLast | internal/data/postgres/model.sql.go:98-104 | nothing takes effect on a task after Complete |
| LeaseRuns.ResetFollowsFail | internal/data/postgres/work_store.go:89-132 | an operator reset takes effect only with a Fail before it and nothing in between |
| LeaseRuns.AtMostOneBind | internal/data/postgres/work_store.go:238-259 | over a whole run at most one Bind takes effect |
| LeaseRuns.AttemptsCountClaims | internal/data/postgres/model.sql.go:2266-2284 | attempt_count is the number of claims since the last operator reset |
| LeaseRuns.RetriesAreBounded | internal/worker/import_worker.go:263-281 | if workers stop at MaxAttempts, at most MaxAttempts - 1 retries take effect between resets |
| LeaseRuns.RetryWaits | internal/data/postgres/model.sql.go:2321-2328 | after a retry the next statement to take effect is a claim, made after the delay |
| LeaseRuns.ClaimExactly | internal/data/postgres/model.sql.go:46-54 | the next claim on a row that nothing has touched since takes effect exactly when the row is pending or importing, its next attempt and its lease have come, and the counts of claims fit their columns |
| LeaseRuns.ClaimAfterRetry | internal/data/postgres/model.sql.go:2321-2328 | after a retry, with nothing in effect since, a claim takes effect exactly when the delay asked for has passed on the database clock |
| LeaseRuns.ClaimAfterReset | internal/data/postgres/model.sql.go:2266-2284 | after an operator reset a claim takes effect exactly from the moment of the reset on, the attempts starting again |
| LeaseRuns.ClaimAfterLease | internal/data/postgres/model.sql.go:2166-2172 | under a lease another claim takes effect exactly when the latest claim or renewal has run out its own length: no earlier and no later |
| LeaseRuns.TimelyRenewalPreventsTheft | internal/worker/import_worker.go:195-249 | with renewals less than a lease apart on the database clock no claim takes effect in between, every renewal does, and so does the holder's terminal write |
| LeaseRuns.ClaimRefines | internal/biz/work/work.go:45-53 | a claim that the database accepts is the pure claim at the moment of the write exactly when owner and lease are ones the pure claim admits |
| LeaseRuns.ClaimConverse | internal/data/postgres/model.sql.go:46-54 | a pure claim that is allowed is one the database allows exactly when the retry delay has passed and both counters fit |
| LeaseRuns.ClaimsDiffer | internal/data/postgres/model.sql.go:46-54 | a run of a claim and a retry after which the pure task may be claimed at once and the row may not, and a claim without an owner that only the row takes |
| LeaseRuns.ReleaseRefines | internal/biz/work/work.go:54-68 | SQL Complete and Fail take effect exactly when the pure transitions succeed, with the same shared fields |
| LeaseRuns.RunSimulatesTask | internal/biz/work/work.go:45-68 | every run of claims, completes and fails on a row is a run of the pure task, step by step |
| TaskRows.TaskTable.Claim | internal/data/postgres/work_store.go:138-156 | the new table in full, success exactly when the guard held and the counters fit, and the returned row is the stored one |
| TaskRows.TaskTable.Bind | internal/data/postgres/work_store.go:238-259 | the new table in full, and success exactly under a live lease on an unbound task |
| TaskRows.TaskTable.Retry | internal/data/postgres/work_store.go:276-289 | the new row in full: pending again, the lease gone, and the next attempt exactly the delay, in whole microseconds, after the clock reading of the write; success exactly for the owner and epoch of a live lease |
| TaskRows.TaskTable.RetryFailed | internal/data/postgres/work_store.go:89-132 | of the statement, what it does to the task: a failed task restarts with its epoch kept and its attempts at zero; any other is left alone and told apart from a missing one |
| Catalog.CatalogTables.RetryFailedAndResetVersion | internal/data/postgres/model.sql.go:2266-2292 | the statement in full, on both tables: exactly a failed task restarts, and with it its bound version if that was in error; nothing else changes |
| ImportWorkers.CompletedTaskHasReadyVersion | internal/worker/import_worker.go:152-250 | in every reachable state a completed task has a bound version that was ready, and is ready with its verified artifact or deleted since |
| ImportWorkers.BindingIsFixed | internal/worker/import_worker.go:171-193 | in every run of the protocol a task's binding never changes once set |
| ImportWorkers.LiveLeaseIsExclusive | internal/data/postgres/model.sql.go:2166-2172 | two workers never both hold a live lease on one task |
| ImportWorkers.ProtocolBoundsRetries | internal/worker/import_worker.go:263-281 | whatever the interleaving, crashes and thefts, each task row sees a run of guarded statements with at most MaxAttempts - 1 retries between resets |
| ImportWorkers.EveryActionKeepsInv | internal/worker/import_worker.go:152-250 | each move of any worker, operator or other writer keeps the protocol's invariant |
| ImportLoop.Worker.RunOnce | internal/worker/import_worker.go:152-250 | one scan, with others acting between its statements, only makes moves the protocol allows at that point, claims each due task once, in order, gives each one turn as Process does, and keeps the protocol's invariant |
| ImportLoop.Worker.Process | internal/worker/import_worker.go:152-250 | one turn in full, statement by statement and by the replies to them: claim, bind, work with renewals, MarkReady, Complete or the failure path; and a turn in which nobody interferes, renewals are prompt and the executor leaves a verified version behind ends with the task completed and the version ready |
| ImportTurns.ClaimIsNeverDropped | internal/worker/import_worker.go:171-281 | what follows a claim that was won and heard of lets the task go exactly once, at its end, by Complete, Retry or Fail; a retry comes only below MaxAttempts and waits five minutes if the task had no version and there is no binder, and a second otherwise; a failure comes only at MaxAttempts, right after the version's error if the task had a version |
| ImportTurns.TurnEnds | internal/worker/import_worker.go:152-281 | the same of a whole turn by the reply to its claim: a good one and the task is let go once, at the end, on the terms that the row calls for; any other and the turn is nothing but the claim |
| ImportTurns.GoodTurnIsSmooth | internal/worker/import_worker.go:195-249 | prompt renewals, in terms of clock readings alone, keep every statement of a turn inside the lease then in force, up to Complete |
| ImportTurns.PersistAndChecksumVerify | internal/worker/import_executor.go:260-294 | an executor that persists an artifact and then sets its digest leaves an open version of a live model verified, however often it renews in between |
| ImportLoop.Worker.Execute | internal/worker/import_worker.go:195-232 | an execution counts as done exactly when the executor says so and every reply to its renewals was good; the replies are those of the renewals that fell due, in order, up to the first bad one, and without a bad one all its writes and renewals were issued in order |
| ImportLoop.Worker.RenewNow | internal/worker/import_worker.go:199-213 | a renewal counts exactly when its statement took effect on the row as it then was and the reply arrived |
| ImportLoop.Worker.EnsureBound | internal/worker/import_worker.go:171-193 | an unbound claim goes on only with the binder's version, after an acknowledged Bind, and otherwise to failure; a bound one is left alone |
| ImportLoop.Worker.Finalize | internal/worker/import_worker.go:235-250 | after MarkReady comes Complete exactly if MarkReady succeeded on the tables it found and the reply arrived, and otherwise the failure path in full |
| ImportLoop.Worker.MarkNow | internal/worker/import_worker.go:235-243 | a MarkReady counts exactly when the transition was allowed or the version deployable on the tables as they then were, and the reply arrived |
| ImportLoop.Worker.RetryOrFail | internal/worker/import_worker.go:263-281 | the statements in full: below MaxAttempts one Retry with the delay asked for, otherwise the version's error, if there is a version, and then Fail |
| Catalog.EveryWriterKeepsSound | internal/data/postgres/model.sql.go:2128-2151 | each writer of the three tables keeps: a ready version has an artifact with a non-empty reference and its own non-empty checksum, and its model is ready or deleted |
| Catalog.EveryWriterEvolves | internal/data/postgres/model.sql.go:2354-2364 | each writer keeps artifacts as inserted, never replaces a non-empty checksum, and lets ready leave only to deleted |
| Catalog.HistoryKeepsIntegrity | internal/data/postgres/version_store.go:213-313 | both of the above between any two points of any history of writers |
| Catalog.VerifiedImportBecomesReady | internal/worker/import_executor.go:260-294 | after persisting an artifact and setting its digest as checksum, on an open version of a live model, the checksum and the size given are stored and MarkReady then takes effect on version and model |
| Catalog.CatalogTables.MarkReady | internal/data/postgres/version_store.go:213-232 | the new tables in full; it succeeds exactly when a live model's version is open and backed, and is then marked ready with its model, or is ready already with a digest, and is then left alone |
| Catalog.ReadyReplays | internal/data/postgres/model.sql.go:1282-1286 | on sound tables MarkReady succeeds on every ready version whose model is not deleted |
| Catalog.MarkReadyIsRepeatable | internal/data/postgres/version_store.go:213-232 | in any history a MarkReady that took effect succeeds again, whatever came in between, as long as neither the version nor its model was deleted |
| Catalog.DigestsSpellBytes | migrations/000001_model_control_plane.sql:51 | the digest columns hold exactly the hexadecimal spellings of 32 bytes |
| Catalog.CatalogTables.MarkErrorAndMaybeModel | internal/data/postgres/version_store.go:253-299 | it takes effect exactly under the task's live lease on an open version, and the model turns to error exactly when none of its versions is ready |
| Catalog.CatalogTables.SetChecksum | internal/data/postgres/version_store.go:301-313 | the new tables in full, and success exactly when the write-once rule allows it |
| Catalog.CatalogTables.PersistArtifact | internal/worker/import_executor.go:260-294 | it succeeds exactly when the stored artifact is afterwards the one asked for; one that differs is never overwritten |
| RowLocks.EveryActionKeepsInv | internal/data/postgres/version_store.go:249-299 | each lock-taking statement, commit and rollback of any transaction keeps soundness of the committed tables and compatibility of all locks held |
| RowLocks.ReadyAlwaysWins | internal/data/postgres/model.sql.go:2012-2047 | in every interleaving of error and ready transactions, a committed ready version's model is ready or deleted, so a model in error has no ready version |
| RowLocks.EveryActionIsAWriter | internal/data/postgres/version_store.go:213-313 | of the interleaved statements, each commit has the whole effect of one atomic writer that is allowed at that instant, and no other changes the tables, except a MarkReady that revives a deleted model |
| RowLocks.RunIsAHistory | internal/data/postgres/version_store.go:213-313 | every run without a revival is a history of atomic writers, in the order of their commits, each allowed when it takes effect |
| RowLocks.UnopposedWriterGetsThrough | internal/data/postgres/version_store.go:213-299 | the converse: whatever else is under way, a multi-statement writer that is allowed and whose rows nobody else has locked can commit its whole effect and change nothing else; a deletion of any number of versions when the checker calls each batch inactive |
| RowLocks.OneWriterPerRow | internal/data/postgres/model.sql.go:2012-2151 | at any instant of any run no two transactions are at work on one version, and two on one model only if both insert versions or one inserts beside a MarkReady |
| RowLocks.RunKeepsIntegrity | internal/data/postgres/model.sql.go:2128-2151 | between any two points of any run, revivals included, artifacts stay as inserted, checksums are write-once, and ready leaves only to deleted |
| RowLocks.DeletionCheckedEveryVersion | internal/data/postgres/deletion_store.go:68-135 | when a model deletion commits, each of its batches of 1 to 256 ids was put to the reference checker at some earlier step, in turn, and answered inactive, and together they are every version row of that instant, in strictly ascending order, so each exactly once |
| RowLocks.EveryBatchWasInactive | internal/data/postgres/deletion_store.go:114-126 | at any point of any run, each batch a deletion has behind it was asked about with exactly the batches before it answered, and answered inactive |
| RowLocks.RefusedDeletionChangesNothing | internal/data/postgres/deletion_store.go:68-135 | in any run, a deletion that ends without a commit was rolled back or refused by an answer, none of its own steps changed the tables, and from its lock to its end nobody changed the model row or its set of version rows |
| RowLocks.DeletionIsFinal | internal/data/postgres/model.sql.go:2128-2151 | in every run a committed deletion stays when no MarkReady that can still get through was under way |
| RowLocks.FinalExactlyWithoutMarkReady | internal/data/postgres/model.sql.go:2128-2151 | some continuation makes a just deleted model ready exactly when a MarkReady under way holds its version row, or found it in its snapshot and the row is pending, importing or in error |
| RowLocks.DeletionIsFinalExactlyWhen | internal/data/postgres/deletion_store.go:127-135 | the same equivalence at every committed deletion of every run |
| RowLocks.DeletedModelComesBack | internal/data/postgres/model.sql.go:2147-2150 | a run in which a deletion commits and the model is ready afterwards |
| Deletion.CheckReferences | internal/data/postgres/deletion_store.go:114-126 | batches of 1 to 256 that concatenate to a prefix of the ids, to all of them when every answer was inactive, stopping at the first that was not |
| Deletion.DeleteModel | internal/data/postgres/deletion_store.go:14-136 | an error leaves the tables alone and names the answer that caused it; success means that every version row was asked about and answered inactive |
| Deletion.DeleteVersion | internal/data/postgres/deletion_store.go:17-136 | the same for one version, with a single request |
| Registration.CompleteIsExactlyOnce | internal/data/postgres/trained_artifact_store.go:136-202 | in every race a ready registration made exactly one version, with its model, size, digest and artifact; any other made none; the versions made are those its commits inserted, and every other version or artifact row was there at the start or came from another API |
| Registration.BytesAreConserved | internal/data/postgres/trained_artifact_store.go:136-202 | in every race a model's total is its initial value plus the sizes of the ready registrations attached to it |
| Registration.OutcomeIsFinal | internal/data/postgres/trained_artifact_store.go:112-230 | a registration only moves forward, and ready, failed and aborted are never left |
| Registration.AbortDecides | internal/data/postgres/trained_artifact_store.go:213-230 | in every race an undecided registration that is aborted, or failed, stays so in every later state, with no version ever made for it and no reply of Complete for it |
| Registration.CommitDecides | internal/data/postgres/trained_artifact_store.go:136-202 | in every race a commit of Complete makes its registration ready, with that model and version, in every later state |
| Registration.RepliesAgree | internal/service/trained_artifact.go:103-149 | all replies to Complete for one registration, from the store or the service shortcut, are equal |
| Registration.TrainedArtifactStore.Complete | internal/data/postgres/trained_artifact_store.go:136-202 | all tables after it in full: the registered version and bytes, or an unchanged catalog and a failed registration |
| Registration.TrainedArtifactStore.CompleteTx | internal/data/postgres/trained_artifact_store.go:141-200 | the statements of the transaction together have the one effect of a registration, or fail exactly when it is not allowed |
| Registration.TrainedArtifactStore.Abort | internal/data/postgres/trained_artifact_store.go:213-230 | it succeeds exactly on an undecided registration, which is then aborted and otherwise as it was; on any other nothing changes |
| Prepare.RegistrationRows.Prepare | internal/data/postgres/trained_artifact_store.go:29-78 | a row stands under the key afterwards and the answer is the comparison with it; the call recurses at most once, and only when another insert came between |
| Prepare.OneRegistrationPerKey | internal/data/postgres/trained_artifact_store.go:29-78 | all successful callers under one key, however they raced, asked for the same and got the same id and path |
| Prepare.RecursionIsOneDeep | internal/data/postgres/trained_artifact_store.go:65-78 | in every race a unique violation sends a caller back at most once |
| Prepare.LateReplayNeverConflicts | internal/service/trained_artifact.go:52-92 | a caller who arrives after the row of its own request exists is refused before the store or gets that row, whatever the defaults are by then |
| Prepare.OtherRequestConflicts | internal/data/postgres/trained_artifact_store.go:34-41 | in every run, a caller that arrives once its key has a row is refused before the store, or conflicts exactly when its content or its own full runtime differs, and otherwise gets that row's id and path |
| Prepare.FingerprintDecides | internal/service/trained_artifact.go:52-92 | in every run, a caller whose runtime was resolved gets a conflict exactly when the standing row's fingerprint is not that of its content and runtime, and otherwise that row's id and path, whenever it looked |
| Prepare.RuntimeRules | internal/service/trained_artifact.go:165-205 | which refusal or which runtime a request gets, case by case: its own if full, the frozen one of its key, or the defaults of its source version, which has to be ready |
| Prepare.FrozenFromAReadySource | internal/service/trained_artifact.go:165-205 | in every run a registration for a source version froze the defaults read of it when it was ready, or the full runtime of its own request |
| Prepare.BlankAndTrimmed | internal/service/trained_artifact.go:165-205 | the two checks on spaces are those of trimming: nothing is left, or nothing is taken |
| Prepare.EarlyLookupConflictsExactlyOnNewDefaults | internal/service/trained_artifact.go:165-205 | in every run, a caller with the row's content whose lookup came too early conflicts exactly when the runtime it resolved is not the frozen one |
| Prepare.SameRequestCanConflict | internal/service/trained_artifact.go:65-92 | for any request and any two readings of the source that resolve differently, a run in which two callers send it and the second gets a conflict |
| Prepare.RepeatedPrepareConflicts | internal/service/trained_artifact.go:65-92 | such a run exists, from no registrations at all |
| BundleImport.NeverAPartialBundle | internal/data/postgres/import_bundle_store.go:74-118 | in no state of any race does a bundle's row stand without the other two, by the same caller |
| BundleImport.SuccessfulCallersAgree | internal/data/postgres/import_bundle_store.go:29-71 | all callers that succeed under one key got the same three ids for the same request, and those rows stand |
| BundleImport.LoserFindsTheWinner | internal/data/postgres/import_bundle_store.go:62-70 | a caller whose insert waited for a rival's commit replays and returns the rival's ids |
| BundleCall.Caller.ImportBundle | internal/data/postgres/import_bundle_store.go:29-159 | whatever others do between its statements, an answer with ids names the three rows under the key with this request's fingerprint; undisturbed, it inserts the bundle exactly when the key has no row and otherwise answers from the rows there |
| ArchiveFacts.InspectArchive | internal/data/storage/finetuning_facts.go:92-224 | it accepts exactly the archives that meet every bound on the whole, reports their sorted files and captured bytes, and gives only justified refusals: a limit it names is really exceeded |
| ArchiveFacts.EnvelopeGrows | internal/data/storage/finetuning_facts.go:112-122 | at the header points, bytes read minus payload never decreases |
| ArchiveFacts.EarlyRefusalIsSound | internal/data/storage/finetuning_facts.go:112-122 | an archive refused early for overhead would have been refused in the end |
| ArchiveFacts.AllowanceSuffices | internal/data/storage/finetuning_facts.go:24-27 | within 4096 entries, 1024 files, 16 MiB of extra metadata and the content limit, neither envelope bound refuses |
| ArchiveFacts.BytesSplit | internal/data/storage/finetuning_facts.go:206-208 | bytes read are payload plus envelope, nothing counted twice or missed |
| ArchiveFacts.CheckHeader | internal/data/storage/finetuning_facts.go:123-165 | a header passes exactly when it may come next; otherwise the limit named is exceeded by the amount named |
| ArchiveMembers.DirectoriesAreWelcome | internal/data/storage/finetuning_facts.go:112-157 | an empty directory under a safe path that no other header names can be added anywhere within the limits on entries and envelope; the report is the same but for size and digest |
| ArchiveMembers.NamesLetThrough | internal/data/storage/finetuning_facts.go:112-122 | the names let through are exactly a safe path or, for a directory, a safe path and a slash, and the pass goes on with that path |
| ArchiveMembers.PlainExactly | internal/data/storage/finetuning_facts.go:123-190 | which entries may stand in an archive, over their headers: unlinked, under such a name, empty directories or whole regular files, configuration being short UTF-8 JSON |
| ArchiveMembers.FilesAreTheMembers | internal/data/storage/finetuning_facts.go:158-190 | the files reported are exactly the regular members, under the name in the header, at its size and the digest of its bytes |
| ArchiveMembers.CapturedIsTheMember | internal/data/storage/finetuning_facts.go:158-190 | the bytes captured under a name are those of the one member with that name in its header |
| FactsValidation.ReportsAreValid | internal/data/storage/finetuning_facts.go:215-224 | an accepted archive's report is strictly increasing, well formed and within the limit, and the validator's file clauses accept it exactly when the two configuration files are JSON objects |
| FactsValidation.ValidateFiles | api/model/v1/finetuning_facts.go:55-77 | it accepts exactly the file lists in strict order that hold both configuration files at their sizes and hashes and have a layout |
| FactsValidation.CapturedIsListed | internal/data/storage/finetuning_facts.go:158-190 | captured bytes are those of a listed file, at its recorded size and hash |
| Paths.FactsPathMeansSafe | api/model/v1/finetuning_facts.go:27-29 | the path rule accepts exactly the short printable UTF-8 paths whose elements are neither empty nor "." nor ".." |
| Paths.ValidExactlyEncodings | api/model/v1/finetuning_facts.go:27-29 | the UTF-8 check accepts exactly the encodings of sequences of Unicode scalar values |
| JsonFacts.AcceptsExactlyOneObject | api/model/v1/finetuning_facts.go:80-137 | accepted token streams are exactly the printings of one object, with nothing after it, that repeats no name at any level and keeps every value at depth 64 or less |
| JsonFacts.CheckJSONObject | api/model/v1/finetuning_facts.go:80-137 | the recursive check over the stateful decoder ends on every stream with that answer |
| JsonFacts.OnePrintingOneValue | api/model/v1/finetuning_facts.go:80-137 | a token stream is the printing of at most one value |
| WeightLayout.Inspect | api/model/v1/finetuning_layout.go:28-92 | the answer is SINGLE or SHARDED exactly for inventories of that layout, and the shard list is the range of weight_map in strict order |
| WeightLayout.OrderDoesNotMatter | api/model/v1/finetuning_layout.go:28-92 | reordering the inventory, or visiting the maps in another order, changes neither verdict nor shard list |
| WeightLayout.ShardsAreTheWeightFiles | api/model/v1/finetuning_layout.go:67-91 | a sharded layout lists exactly the .safetensors members, each once |
| WeightLayout.DigestsAreEncodings | api/model/v1/finetuning_facts.go:24-26 | a digest is exactly the lower-case hexadecimal encoding of 32 bytes |
| Orders.IncreasingIsUnique | api/model/v1/finetuning_layout.go:87-91 | a strictly increasing list is determined by its elements |
| Orders.LessByFirstDifference | api/model/v1/finetuning_layout.go:87-91 | the order of the lists is that by the first difference, a string before its extensions |
| ImportSizing.EstimateManifestSize | internal/worker/kubernetes_executor.go:346-378 | an estimate is given exactly when the listing is non-empty, each selected size is in range and the padded true sum fits, and it is that padded sum; no step overflows |
| ImportSizing.WantedIsTheFile | internal/worker/kubernetes_executor.go:346-378 | a repository id without a hash mark singles no file out; otherwise the file is what follows the first one, without the slashes around it |
| ImportSizing.SumAddsUp | internal/worker/kubernetes_executor.go:346-378 | the sum adds up over lists, and over one file it is its size or, if another was singled out, nothing |
| ImportSizing.QuantityIsLeastCover | internal/worker/kubernetes_executor.go:381-384 | the quantity is the least covering number of GiB exactly up to MaxInt64 - (2^30 - 1), and negative above |
| ImportSizing.EstimateCanOverflow | internal/worker/kubernetes_executor.go:346-384 | a listing whose accepted estimate makes the quantity negative |

## Left out

- Kubernetes objects, MinIO, HTTP providers, gRPC and TLS: input and output. Execute is "writes an artifact and a checksum any number of times, and reports success or failure".
- Clean-up of Jobs, volumes and Secrets: best effort with ignored errors, so it promises nothing.
- The tar header parser, SHA-256 and the lexing inside encoding/json: parameters, as stated under Assumptions.
- PostgreSQL beyond row locks, per-statement reads and unique violations: no vacuum, no serialization failures, no deadlock detection. A MarkReady whose snapshot shows no open, backed version of a live model ends without effect and is not a transaction of the model.
- MarkErrorAndMaybeModel in ImportWorkers is one step; its split into statements is RowLocks.
- Lock waits: a statement that would wait is not enabled yet; a wait that never ends is a rollback.
- Tenants other than one, external model ids as selectors of DeleteModel, timestamps such as updated_at, error texts of versions, and the provider column of artifacts.
- ListDue: the due tasks of a scan are any list, and Claim decides again.
- WorkStore.Create and CreateModel's and CreateVersion's own replays: the same idempotent insert as bundles, with less state.
- Run's ticker, wake-ups and health reports, logging, metrics, audit records, error-to-status mapping, pagination and field validators: flat case tables.
- A worker without a Finalizer, and MaxAttempts of zero outside Run, which replaces it by five.
- ValidateFor's clauses on ids, bucket, object key and target: they compare fields one by one.
- InspectFinetuningArtifact's object calls: the pass starts at the stream they open, and its size checks repeat those made there.
- The download path of the in-process ImportExecutor apart from persistArtifact.
- ImportLoop.Worker.RunOnce: the renewal goroutine is a sequence of renewals among the executor's writes, not a thread; a renewal refused fails the execution, as in the source.
- BundleCall.Caller.ImportBundle: connection failures are an abort of the call at some point; the validation of the request comes before it.
- ArchiveFacts.InspectArchive: the reader's context is a cause of failure on any read, not a separate value.
- WeightLayout.Inspect: sort.Strings is an insertion sort on values, not in place; so is sort.Slice in ArchiveFacts.

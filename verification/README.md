# Weavecarbon core: verified models

Dafny models of the parts of the Weavecarbon backend that hold real state machines, ledgers and canonical
forms, with proofs about every run or every input. Each stateful JavaScript object is a class whose methods
update its fields and are proved against specification functions; the same functions are the steps of the
transition systems in which the properties of whole runs are proved.

| component | files |
|---|---|
| durable job queue | `JobTable`, `JobRepository`, `JobQueue`, `JobQueueBounds`, `JobQueueProgress`, `JobRetention` |
| reward and CO2 ledger | `DonationMath`, `RewardLedger`, `LedgerBalance`, `LedgerReplay`, `RewardTransactions` |
| carrier document controls | `CarrierText`, `CarrierDocument`, `CarrierTotals`, `CarrierChecks`, `CarrierRules`, `CarrierControls`, `CarrierInvariance` |
| migration runner | `MigrationRunner`, `MigrationProtocol` |
| analytics outbox | `AnalyticsOutbox`, `AnalyticsDelivery`, `AnalyticsBacklog` |
| transaction-to-savepoint adapter | `SavepointAdapter` |
| canonical forms and escapers | `CanonicalJson`, `MetricKeys`, `WorkflowEscape` |
| shared | `Options`, `Sums`, `Text`, `SortedEntries` |

`dafny verify dfyconfig.toml` checks everything.

## Assumptions

- The database is PostgreSQL under READ COMMITTED. A statement is atomic; `NOW()` is the start of the
  transaction; a row lock and a unique-key slot are held to the end of the transaction. A statement that would
  wait for a lock is a step that is not enabled.
- Times are integers in milliseconds. Row ids come from random UUIDs and never repeat; a method that inserts is
  given its fresh id.
- An enqueue, a recovery, a settlement and a prune of the job queue start and commit at one instant; only a claim
  takes time between its row lock and its commit.
- The CO2 factors in `material_rewards` are never negative, which the modelled code does not enforce. Without it,
  `DisposeKeepsBalanceIff` still gives the exact condition for a balanced ledger.
- What the migration database accepts is any function of what has been executed and of the query.
- Quantities that the service rounds to four decimals are whole numbers of 1/10000; other numbers are exact.
- Text is ASCII, and texts are ordered by code unit. SHA-256 is injective.
- The carrier validator takes `String(number)` and `Number(text)` as given functions (`Host`); all it needs of
  them is that 0 prints as "0".

## Where the code does less than its name suggests

Each of these has an exact condition, proved in both directions, and a concrete run or input.

- `attempts` can exceed `max_attempts`: recovery never looks at `attempts`, and `fail` compares the caller's
  record. One step breaks the bound exactly when it claims a waiting row that has used its grant
  (`NaiveBoundKeptIff`); a run keeps such rows out exactly when every recovery and failure respects the grant
  (`GrantThroughoutIff`), and otherwise workers can go on until the bound is broken (`OutsideGrantBreaks`). The
  bound that always holds adds the number of recoveries (`AttemptsBound`), and runs attain it (`BoundIsAttained`).
- A delivered analytics event can stay selected or be selected again, and its counter can miss attempts: exactly
  when an event is selected is `SelectedIff`, exactly when a counter goes wrong is `CounterExactIff` for a step and
  `CounterExactThroughIff` for a run, with the runs `OverlapExample` and `LostUpdateExample`.
- After a crash, rerunning the migrations need not be able to finish: a statement outside of a transaction may have
  been executed without its record, and may be refused the second time. `RerunFinishesIff` is the exact condition,
  `TransactionalRerun` the case in which it always holds, `InterruptedIndexExample` a failing run.
- The savepoint adapter stands in for a flat transaction exactly for the texts of `Covered`
  (`StepSimulatesIff`; `CommitAfterFailureExample`, `NestedBeginExample`), and the outer ROLLBACK undoes everything
  exactly when no text that is passed through ends the transaction (`OuterRollbackIff`, `HiddenCommitExample`).
- A zero or false sent where a text is expected is dropped under the camelCase name and kept under the
  snake_case name (`SpellingIff`, `SpellingExample`).
- A package line of quantity zero adds nothing to the package count but weighs and measures as one package, so it
  is without effect exactly when it is a pallet or has neither weight nor volume (`ZeroQuantityIff`,
  `ZeroQuantityExample`).

## Model

| member | source | states |
|---|---|---|
| JobRepository.Repository.Enqueue | src/operations/jobRepository.js:6-29 | one row per idempotency key: a new key gives a fresh pending row and `accepted`, a known key leaves the table alone and returns the existing row's id and status; a non-positive `max_attempts` fails and changes nothing |
| JobRepository.Repository.RecoverStaleJobs | src/operations/jobRepository.js:31-42 | exactly the running rows locked longer ago than the limit go to retry, unlocked and available now, keeping an earlier error or saying that the worker was interrupted; returns their number |
| JobRepository.Repository.PruneFinished | src/operations/jobRepository.js:44-52 | removes exactly the finished rows past retention and returns how many |
| JobRepository.Repository.BackfillReports | src/operations/jobRepository.js:54-92 | inserts a job for each processing report without a stored file unless its key exists; returns the number of rows gained |
| JobRepository.Repository.BackfillEvidence | src/operations/jobRepository.js:94-111 | the same for uploaded, locally stored evidence with a storage key |
| JobRepository.ReportIsQueued | src/operations/jobRepository.js:59-87 | every report in processing without a stored file is queued under its own key, with the first job kind that fits |
| JobRepository.OnlyReportsAreQueued | src/operations/jobRepository.js:59-87 | every row queued by the report backfill is such a report |
| JobRepository.EvidenceIsQueued | src/operations/jobRepository.js:99-106 | every uploaded file in local storage is queued for processing under its own key |
| JobRepository.OnlyEvidenceIsQueued | src/operations/jobRepository.js:99-106 | every row queued by the evidence backfill is such a file |
| JobRepository.Repository.ClaimNext | src/operations/jobRepository.js:113-132 | returns a due unlocked row than which none was available (then created) earlier, marked running for that worker at that time with one more attempt, and no row only if none is due |
| JobRepository.Repository.CompleteJob | src/operations/jobRepository.js:134-142 | completes and unlocks the row only if it is still running, whoever holds it |
| JobRepository.Repository.FailJob | src/operations/jobRepository.js:144-157 | dead or retry is decided by the caller's record, written only to a row still running, with the first 2000 characters of the message and the delay, and reported either way |
| JobRepository.Repository.Counts | src/operations/jobRepository.js:159-165 | number of rows per status, with no entry for a status that has none |
| JobTable.BackfillTwice | src/operations/jobRepository.js:54-111 | a second backfill over unchanged sources inserts nothing, whatever ids and time it uses |
| JobTable.NextExists | src/operations/jobRepository.js:115-122 | a due unlocked row makes a claim succeed with an earliest one |
| JobQueue.StepKeepsInv | src/operations/jobRepository.js:6-157 | every action by any worker, late or not, keeps the queue invariant: locks, attempt accounting, held records, unique keys and row counts |
| JobQueue.AttemptsBound | src/operations/jobRepository.js:31-42 | in every run, late settlements included, `attempts <= max_attempts + recoveries` of that job, strictly while waiting, and a dead job has used its grant |
| JobQueue.QueueInvariant | src/operations/jobRepository.js:6-111 | in every run rows equal accepted plus backfilled minus pruned, each key has one row, and a row is locked exactly while running |
| JobQueue.AcceptedOncePerKey | src/operations/jobRepository.js:6-52 | in every run, between two accepted enqueues of one key there is a prune that removed the row of the first |
| JobQueue.FinishedIsFinal | src/operations/jobRepository.js:134-157 | a completed or dead row never changes again except by being pruned |
| JobQueue.OverlappingClaimsDiffer | src/operations/jobRepository.js:113-132 | in every run two claims in progress hold different waiting rows |
| JobQueue.LockedRowIsStable | src/operations/jobRepository.js:115-128 | between the row lock and the end of a claim no other action changes or removes the row |
| JobQueueBounds.NaiveBoundKeptIff | src/operations/jobRepository.js:113-132 | `attempts <= max_attempts` survives an action exactly when the action does not end a claim on a row that has used its grant |
| JobQueueBounds.GrantKeptIff | src/operations/jobRepository.js:31-42 | that bound together with "a waiting row has an attempt left" survives an action exactly when the action does not send a row that has used its grant back to retry |
| JobQueueBounds.GrantThroughoutIff | src/operations/jobRepository.js:31-157 | the two hold in every state of a run exactly when every recovery and every failure of the run respects the grant |
| JobQueueBounds.OutsideGrantBreaks | src/operations/jobRepository.js:113-132 | from every reachable state in which they fail the run can go on to break `attempts <= max_attempts` |
| JobQueueBounds.BoundIsAttained | src/operations/jobRepository.js:31-42 | for every grant and every number of recoveries some run reaches exactly their sum |
| JobQueueBounds.TimelyClaimsAreExclusive | src/operations/jobRepository.js:113-157 | if every worker settles within the stale limit, no job has two open claims and the held record is the row |
| JobQueueBounds.TimelyAttemptsBound | src/operations/jobRepository.js:113-157 | with such workers that never vanish, `attempts <= max_attempts` holds in every state |
| JobQueueProgress.AheadFalls | src/operations/jobRepository.js:113-132 | while a job is due, every claim lowers the number of jobs ahead of it, and only an aborted claim raises it |
| JobQueueProgress.DueUntilClaimed | src/operations/jobRepository.js:31-157 | a due job stays due under every action but a claim that takes it |
| JobQueueProgress.NoStarvation | src/operations/jobRepository.js:31-157 | as long as a due job is left unclaimed, the claims begun are at most the jobs that were ahead of it plus the aborted claims |
| JobQueueProgress.DueIsClaimed | src/operations/jobRepository.js:31-157 | however actions interleave, once more claims have begun than that, one of them has taken the job |
| JobQueueProgress.DueMakesClaimSucceed | src/operations/jobRepository.js:113-122 | a claim made while a job is due returns some row |
| JobQueueProgress.PressureFalls | src/operations/jobRepository.js:113-157 | without inserts and recoveries the sum of twice the remaining attempts plus one per running row falls on every claim and effective settlement and never rises |
| JobQueueProgress.QueueDrains | src/operations/jobRepository.js:113-157 | so from any reachable state at most that many claims and effective settlements can follow |
| JobQueueProgress.LeftFalls | src/operations/jobRepository.js:113-157 | without inserts and recoveries each claim uses up exactly one of the remaining attempts, and nothing but pruning lowers their sum otherwise |
| JobQueueProgress.ClaimsLeft | src/operations/jobRepository.js:113-157 | at most the sum of the remaining attempts more claims can complete, and without pruning the claims made and the attempts left always add up to it |
| JobRetention.FinishedIsKept | src/operations/jobRepository.js:44-52 | in every run that prunes with at least that many days of retention, a job completed or given up at some time is in the table, as such, for that many days of 24 hours |
| JobRetention.FinishedIsPruned | src/operations/jobRepository.js:44-52 | after any later prune with that retention it is gone |
| JobRetention.RetryWaits | src/operations/jobRepository.js:144-157 | in every run a job that failed with an attempt left is not claimed again before its delay is over |
| JobRetention.ClaimIsDatedFromItsStart | src/operations/jobRepository.js:113-132 | the row of a claim is locked by its worker as of the start of the claim, however late it commits |
| DonationMath.RoundIsNearest | src/services/b2cService/helpers.js:27-30 | rounding gives the nearest whole number, ties upward |
| DonationMath.AwardError | src/services/b2cService.js:986-1007 | for n items the award differs from the exact product by at most n/2 (recycle), or from 1.5 times it by at most 0.75 n + 0.5 (charity) |
| DonationMath.AwardIgnoresOrder | src/services/b2cService.js:1001-1010 | points, weight and CO2 do not depend on the order of the items |
| DonationMath.Co2NotNegative | src/services/b2cService/helpers.js:44-84 | with a factor that is not negative no saving is negative, for every category and disposition |
| DonationMath.SavingsMean | src/services/b2cService/helpers.js:40-84 | per kilogram, reuse saves half of the factor and recycling 0.7, to the nearest unit, and waste nothing; charity is credited as reuse and recycle as recycling |
| RewardLedger.B2CService.Check | src/services/b2cService.js:796-966 | reports the first objection in the order of the checks, from the image to the location of the collection point, and none exactly when the request is acceptable |
| RewardLedger.B2CService.Score | src/services/b2cService.js:986-1010 | the item list scored against the catalogue, with the totals equal to its sums |
| RewardLedger.B2CService.CreateDonation | src/services/b2cService.js:791-1164 | an accepted request adds the donation, its items with the weight, points and saving of each to the nearest unit, one reward transaction and the credit to the user's row; a refused one changes nothing |
| RewardLedger.B2CService.RecordDonationDisposition | src/services/b2cService.js:605-714 | gives every item the saving of its pathway to the nearest unit, sets the donation's to their sum, adjusts the user's total by the difference clamped at zero, and returns the difference; an unknown donation changes nothing |
| RewardLedger.B2CService.SortItems | src/services/b2cService.js:653-674 | the loop gives every item row the saving of its pathway, and only that, and accumulates their sum |
| LedgerBalance.AcceptedDonationKeepsBalance | src/services/b2cService.js:986-1164 | any accepted donation keeps every user's totals equal to the sums over donations and reward transactions, and the level equal to the one of the points |
| LedgerBalance.DisposeKeepsBalanceIff | src/services/b2cService.js:674-702 | a disposition keeps the ledger balanced exactly when the clamp does not bite |
| LedgerBalance.DispositionKeepsBalance | src/services/b2cService.js:636-702 | with non-negative factors it always does, and the user's total moves by the donation's own change |
| LedgerReplay.LatestDispositionDecides | src/services/b2cService.js:636-702 | two sequences of dispositions with the same latest disposition per donation leave the same ledger: the deltas telescope |
| LedgerReplay.RepeatChangesNothing | src/services/b2cService.js:653-702 | recording a disposition again has delta 0 and changes nothing |
| LedgerReplay.SortedAsPledged | src/services/b2cService.js:653-702 | recording reuse for a charity donation, or recycling for one to be recycled, changes no item row and no total |
| LedgerReplay.WasteTakesAllBack | src/services/b2cService.js:653-702 | recording waste brings the donation to zero and the donor's total back to what it was before the donation |
| RewardTransactions.CommitIsSerial | src/services/b2cService.js:617-714 | under the row locks each commit writes what the operation run alone on the committed ledger would |
| RewardTransactions.StepKeepsInv | src/services/b2cService.js:620-706 | every step of concurrent donations and dispositions keeps what each open transaction has read true, and the committed ledger balanced |
| RewardTransactions.EveryCommittedStateBalances | src/services/b2cService.js:1017-1164 | in every interleaving, with factors that are not negative, every committed ledger is balanced and equals the committed operations replayed one after another |
| RewardTransactions.ClampNeverBites | src/services/b2cService.js:693-702 | in every interleaving, with factors that are not negative, the adjusted CO2 total is not negative before the clamp |
| CarrierText.ComparableTwice | src/services/carrierDocumentControls.js:22-23 | comparable text is a fixed point of `comparable` |
| Text.TrimMeans | src/services/carrierDocumentControls.js:22-22 | trimming takes white space off both ends and nothing else |
| CarrierText.ConversionsMean | src/services/carrierDocumentControls.js:22-36 | how truth values, lists and objects are read as texts and numbers |
| CarrierText.ComparableIsWords | src/services/carrierDocumentControls.js:22-23 | compared are the words of a value in upper case, whatever white space stands between and around them |
| CarrierText.UniqueTextsAre | src/services/carrierDocumentControls.js:37-40 | `uniqueTexts` is strictly sorted and holds exactly the non-empty normalised texts |
| CarrierText.UniqueTextsIff | src/services/carrierDocumentControls.js:37-40 | two lists have the same `uniqueTexts` exactly when their sets of non-empty normalised texts agree |
| CarrierText.SameSetIff | src/services/carrierDocumentControls.js:41-45 | `sameSet` holds exactly when the two sets of non-empty normalised texts are equal |
| CarrierDocument.NormalizeTwice | src/services/carrierDocumentControls.js:59-104 | normalising a normalised document gives the same document, for every input |
| CarrierRules.NormalFormMeans | src/services/carrierDocumentControls.js:59-104 | what each of the forty fields becomes, in terms of what is given under either name |
| CarrierRules.EmptyDocument | src/services/carrierDocumentControls.js:59-104 | a document without any field is direct, unverified, of unknown status and entered by hand, and nothing else is known |
| CarrierDocument.CalendarDateIff | src/services/carrierDocumentControls.js:24-31 | a text is a date exactly when it is the numeral of a day of the Gregorian calendar |
| CarrierDocument.SpellingIff | src/services/carrierDocumentControls.js:61-103 | writing fields in snake_case instead of camelCase gives the same document exactly when none of them is a zero or false in place of a text |
| CarrierDocument.SpellingExample | src/services/carrierDocumentControls.js:68-68 | a document number sent as 0 is lost under one name and kept under the other |
| CarrierTotals.PackageWeighs | src/services/carrierDocumentControls.js:46-50 | a package counts its quantity and weighs its weight times that, or once if the weight is that of the group |
| CarrierTotals.PackageMeasures | src/services/carrierDocumentControls.js:46-54 | a package takes up length by width by height times its quantity, or once if the measures are those of the group |
| CarrierTotals.PermutingKeepsTotals | src/services/carrierDocumentControls.js:46-54 | the three totals do not depend on the order of the packages, NaN entries included |
| CarrierTotals.PalletExample | src/services/carrierDocumentControls.js:109-109 | a package of type "Pallet" is a pallet |
| CarrierTotals.PalletsDoNotCount | src/services/carrierDocumentControls.js:109-114 | inserting a pallet anywhere leaves the totals alone |
| CarrierTotals.SplittingKeepsTotals | src/services/carrierDocumentControls.js:46-54 | a package measured per piece may be split into two positive quantities |
| CarrierTotals.LineIsNeutralIff | src/services/carrierDocumentControls.js:46-54 | a further line leaves the three totals alone exactly when it is a pallet or each of its terms is zero or meets a total that is NaN |
| CarrierTotals.ZeroQuantityIff | src/services/carrierDocumentControls.js:46-54 | a line of quantity zero leaves them alone exactly when it is a pallet or has neither weight nor volume, on either measurement basis |
| CarrierTotals.ZeroQuantityExample | src/services/carrierDocumentControls.js:46-50 | five kilograms with quantity zero: no package, five kilograms |
| CarrierControls.ValidateCarrierDocument | src/services/carrierDocumentControls.js:106-231 | `passed` exactly when the rules hold of what the client and the shipment give, the profile checks are ready exactly when the eight profile texts are repeated, and the list reports every applicable requirement once, in order, with the status that its meaning gives |
| CarrierRules.PassesIff | src/services/carrierDocumentControls.js:106-231 | the checks on the normal form come down to rules on the input: type with mode and evidence, required fields by type, confirmed authenticity, stated original status, eight profile texts, figures within tolerance, container and seal sets, stored file |
| CarrierChecks.AcceptableIff | src/services/carrierDocumentControls.js:128-217 | all applicable checks are met exactly when mode, required fields, profile, figures within tolerance, container and seal sets, waybill number and evidence are as declared |
| CarrierChecks.AllReadyIff | src/services/carrierDocumentControls.js:117-221 | no check of the list is open exactly when every applicable requirement is met |
| CarrierControls.Checklist.CheckLedger | src/services/carrierDocumentControls.js:170-187 | each reconciliation is asked only when the total is known, and ready exactly within the absolute or the relative tolerance, or when the sets agree |
| CarrierControls.Checklist.CheckTransport | src/services/carrierDocumentControls.js:189-210 | each document type asks for its own transport fields, and an air waybill for eleven digits |
| CarrierInvariance.PackagesInAnyOrder | src/services/carrierDocumentControls.js:109-114 | permuting the packages leaves everything the checks read unchanged |
| CarrierInvariance.PalletsAreIgnored | src/services/carrierDocumentControls.js:109-114 | so does adding or removing a pallet |
| CarrierInvariance.PackagesMayBeSplit | src/services/carrierDocumentControls.js:46-54 | so does splitting a per-piece package into positive quantities |
| CarrierInvariance.ContainersInAnyOrder | src/services/carrierDocumentControls.js:182-187 | permuting the containers leaves the verdict and the whole check list unchanged |
| CarrierInvariance.ListsInAnyOrder | src/services/carrierDocumentControls.js:88-89 | permuting or duplicating the document's container or seal numbers, or giving them under the other name, leaves everything unchanged |
| MigrationRunner.Migrator.ApplyTransactional | scripts/migrate.js:62-81 | the file and its record are committed together or not at all |
| MigrationRunner.Migrator.ApplyLoose | scripts/migrate.js:83-90 | without a transaction the record comes only after all statements, and a refused statement leaves those before it executed and nothing recorded |
| MigrationRunner.Migrator.Migrate | scripts/migrate.js:95-124 | finishes exactly when no recorded file has changed and every missing file is accepted in its turn, having executed and recorded each once in order; otherwise stops at the first file that offends, names its offence, and has everything before it done |
| MigrationRunner.FinishesIff | scripts/migrate.js:83-124 | a run finishes exactly when no recorded file has changed and the database accepts each query that it sends, after what has been executed by then |
| MigrationRunner.RerunChangesNothing | scripts/migrate.js:104-124 | after a run that finished, a further run finishes and changes nothing, whatever the database accepts by then |
| MigrationProtocol.StepKeepsInv | scripts/migrate.js:42-93 | every step of any number of runners, crashes included, keeps records, effects and each runner's view consistent |
| MigrationProtocol.RecordedIsPrefix | scripts/migrate.js:62-124 | in every interleaving the new records are those of the missing files up to some point of the listing, and the transactional effects are those of the same files, once each and in order |
| MigrationProtocol.LooseRecordComesLast | scripts/migrate.js:84-89 | a file without transaction is newly recorded only after all its statements were executed since the start |
| MigrationProtocol.RerunFinishesTheRest | scripts/migrate.js:95-124 | after any interrupted runs, a further run that finishes leaves the records and transactional effects that a run from the start would have left |
| MigrationProtocol.TransactionalRerun | scripts/migrate.js:62-124 | when every missing file runs in a transaction, in every interleaving and after any crash exactly the recorded files have been executed, a further run can finish whenever a run from the start could have, and leaves the very same database |
| MigrationProtocol.RerunFinishesIff | scripts/migrate.js:83-124 | in general a further run finishes wherever a run from the start would have, exactly when no statement is left over, or nothing is left to execute, or a recorded file has changed so that neither could finish |
| MigrationProtocol.InterruptedIndexExample | scripts/migrate.js:84-89 | a runner stops between creating an index and recording it: a run from the start would have finished, and from there on no run ever does |
| AnalyticsOutbox.AnalyticsService.EnqueueEvent | src/services/analyticsService.js:98-168 | the only new row is unprocessed and without attempts, and is up for delivery exactly when the requested status is empty, pending or failed in any case and padding |
| AnalyticsOutbox.AnalyticsService.MarkEventDelivery | src/services/analyticsService.js:198-219 | only given columns are overwritten, except that the error is always set or cleared |
| AnalyticsOutbox.AnalyticsService.DispatchOutboxRow | src/services/analyticsService.js:221-259 | the update is computed from the row as read: stored without endpoint, sent on success, failed and rethrown otherwise |
| AnalyticsOutbox.AnalyticsService.DispatchPendingEvents | src/services/analyticsService.js:261-314 | every existing requested row is dispatched once and reported, a failure does not stop the rest, no other row changes |
| AnalyticsOutbox.AnalyticsService.FlushPendingEvents | src/services/analyticsService.js:316-348 | dispatches as many pending or failed rows as the limit allows, none of which occurred (then was created) later than one left out, and touches nothing else |
| AnalyticsOutbox.ErrorTextMeans | src/services/analyticsService.js:57-61 | the error kept is the trimmed message, cut after a thousand characters, and none if that is empty |
| AnalyticsOutbox.LimitMeans | src/services/analyticsService.js:316-317 | a flush takes at most the requested number of rows between 1 and 250, and 25 unless asked otherwise |
| AnalyticsBacklog.BacklogDrains | src/services/analyticsService.js:316-348 | in a series of successful flushes a pending event with n others in front of it is dispatched by number n / size + 1, however many later events are enqueued in between |
| AnalyticsDelivery.StepKeepsInv | src/services/analyticsService.js:198-259 | every step of overlapping dispatchers keeps the delivery invariant |
| AnalyticsDelivery.DeliveryGuarantees | src/services/analyticsService.js:198-348 | in every run a processed event was posted or stored, the counter never exceeds the dispatches that wrote a result, and an unprocessed event is selected exactly when it was enqueued as pending or failed or a result has been written |
| AnalyticsDelivery.ProcessedIsNeverCleared | src/services/analyticsService.js:204-204 | no step clears `processed_at` |
| AnalyticsDelivery.CounterExactIff | src/services/analyticsService.js:221-255 | a step keeps the counter exact exactly when a dispatch that lands finds the counter it read |
| AnalyticsDelivery.CounterExactThroughIff | src/services/analyticsService.js:221-255 | in every run the counters are exact exactly when every dispatch that landed found the counter it had read: a counter that is behind never catches up |
| AnalyticsDelivery.CounterExactWithoutOverlap | src/services/analyticsService.js:221-255 | the counter equals the number of dispatches that wrote a result in every run in which dispatches of one row do not overlap; a dispatch that vanished before its update is not counted |
| AnalyticsDelivery.ReselectedIff | src/services/analyticsService.js:250-255 | a processed event comes back into the selection exactly when a failure is written over its row |
| AnalyticsDelivery.SelectedIff | src/services/analyticsService.js:198-348 | in every run an event, delivered or not, is selected exactly when the last dispatch that wrote its row failed, or none has and it was enqueued as pending or failed |
| AnalyticsDelivery.OverlapExample | src/services/analyticsService.js:221-259 | a run in which two dispatches are counted once and the delivered event is selected again |
| AnalyticsDelivery.LostUpdateExample | src/services/analyticsService.js:234-257 | a run without overlap in which the update after the POST fails and the delivered event stays selected |
| SavepointAdapter.ServiceClient.Issue | scripts/test-ai-activity-promotion-pilot.js:34-58 | the trimmed upper-case text decides: BEGIN, COMMIT and ROLLBACK become savepoint commands, anything else is passed through for the database to read |
| SavepointAdapter.Connection.ExpectCode | scripts/test-ai-activity-promotion-pilot.js:21-32 | accepts exactly a statement that fails with the expected code and leaves the connection as it was; a text that ends the transaction makes it fail |
| SavepointAdapter.StepSimulatesIff | scripts/test-ai-activity-promotion-pilot.js:38-56 | for every text the adapter answers and ends as a flat connection would, exactly when the text is covered |
| SavepointAdapter.SessionSimulates | scripts/test-ai-activity-promotion-pilot.js:34-63 | a whole session of covered texts gives the replies of a flat connection, restores the savepoint depth, and is undone by the outer ROLLBACK |
| SavepointAdapter.OuterRollbackIff | scripts/test-ai-activity-promotion-pilot.js:38-56 | at every point of a session, whatever is executed next, the outer ROLLBACK returns to the initial database: exactly when no text that is passed through ends the transaction |
| SavepointAdapter.EndIsHarmlessIff | scripts/test-ai-activity-promotion-pilot.js:55-55 | such a text leaves nothing behind exactly when it rolls back, or commits an aborted or unchanged transaction |
| SavepointAdapter.HiddenCommitExample | scripts/test-ai-activity-promotion-pilot.js:39-55 | `COMMIT;` is not recognised and the write before it survives the outer ROLLBACK |
| SavepointAdapter.CommitAfterFailureExample | scripts/test-ai-activity-promotion-pilot.js:44-48 | COMMIT after a failed statement: a flat connection answers and is idle, the adapter fails and stays aborted |
| SavepointAdapter.NestedBeginExample | scripts/test-ai-activity-promotion-pilot.js:40-43 | after a nested BEGIN one COMMIT leaves a savepoint of the adapter behind |
| SavepointAdapter.TransactionOutcome | scripts/test-ai-activity-promotion-pilot.js:40-54 | a committed transaction keeps its writes, a rolled back one loses them, also after a failed statement |
| MetricKeys.KeyRoundTrip | src/operations/metrics.js:4-14 | the name and the sorted label list can be read back from a key, for identifier names and arbitrary values |
| MetricKeys.KeyIff | src/operations/metrics.js:8-14 | two series share a key exactly when they have the same name and the same label texts in any order |
| MetricKeys.PassesAreOnePass | src/operations/metrics.js:4-6 | the three replacement passes equal one character map |
| MetricKeys.Registry.Increment | src/operations/metrics.js:16-19 | after any calls each counter is the sum of its increments |
| MetricKeys.Registry.SetGauge | src/operations/metrics.js:21-23 | after any calls each gauge is its last set value |
| CanonicalJson.CanonIff | scripts/export-openapi.js:10-24 | two JSON values have the same canonical form exactly when they are equal up to the order of object keys at every depth |
| CanonicalJson.CanonKeepsData | scripts/export-openapi.js:10-24 | the canonical form holds the same data |
| CanonicalJson.CanonIdempotent | scripts/export-openapi.js:10-24 | canonicalising twice is canonicalising once |
| CanonicalJson.CanonOrder | scripts/export-openapi.js:15-20 | of two keys of a canonical object the earlier is the numeral of the smaller number, or the only numeral, or comes first in characters |
| CanonicalJson.IndexIff | scripts/export-openapi.js:16-20 | the keys that an object lists first are the decimal numerals below 2^32 - 1 |
| WorkflowEscape.EscapeIsOnePass | scripts/enforce-trivy-report.js:3-10 | the five replacement passes equal one character map |
| WorkflowEscape.EscapeRoundTrip | scripts/enforce-trivy-report.js:3-10 | the escaped text can be read back and holds no line break, colon or comma |
| WorkflowEscape.EscapeIsInjective | scripts/enforce-trivy-report.js:3-10 | different texts are escaped differently |

## Left out

- `findForCompany` and the JSON payloads of the backfilled jobs: single-row reads and fixed field lists.
- Workers' polling loop, retry delays and configuration: the delay and the stale limit are parameters.
- Donation fields that take no part in the totals (notes, timestamps, images, confirmation method), and a payload that is not an object. The outcome of the GPS distance check is a parameter. An unknown disposition is ruled out by the type.
- Other writers of `user_rewards` (sign-up, demonstration data) and the withdrawal of coupons.
- Binary floating point: rounded quantities are fixed point, weights and volumes in the carrier totals are reals, so a tolerance met only through rounding error is not modelled. Infinities are not modelled; NaN is.
- Carrier checks: message, field path, expected and actual value of a check, which only report; `Date` instances in place of date texts; null entries in the package and container lists and document types named after members of `Object.prototype`, on which the source throws.
- The set `AUTHENTICITY_STATUSES`: exported, but not used by the validator.
- Splitting a migration file into statements and recognising one without transaction: a file is given as its statements. The race of two `CREATE TABLE IF NOT EXISTS`, and the registry synchronisation after the loop.
- MigrationProtocol.RerunFinishesTheRest: speaks of transactional effects only, because statements outside a transaction may be executed again after a crash; a refused statement is taken to have no effect, although a failed concurrent index build leaves an invalid index.
- The payload, identity keys and HTTP request of analytics events: a POST is a success or a failure. The periodic trigger of the flush.
- Expected codes of `expectCode` that are undefined, and the parameters of a statement: a statement is a function on the database, and the reading of a text by PostgreSQL is a given function. Savepoint commands sent by a service itself.
- AnalyticsDelivery.CounterExactWithoutOverlap: an attempt that posted and vanished before its update is not counted by the code, and is not one of the attempts here.
- `render` of the metrics registry: it prints the two maps sorted. `localeCompare` is taken as the order of code units. Amounts are whole numbers.
- Non-ASCII text, in trimming, case mapping and key order.

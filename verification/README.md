# Verified model of the advertising assistant's guarded state

This project models, in Dafny, the parts of the advertising assistant in which correctness rests on more
than one piece of code at a time: the database guards of a campaign publication together with the worker
that runs it, the bounded rate limiter, the one-shot confirmation protocol of the panel, the audit chain,
the views and the backfill that reshape tables, the invariants that several triggers keep jointly, and the
small printers and parsers at the edge. It proves what every run of each of them keeps, and where something
that is documented does not hold it says exactly when it does.

State that the code updates in place is a class whose methods change fields and are proved against
functions on values: one function says what a single step does, one predicate which steps are accepted, and
the theorems are about every sequence of steps. SQL statements are atomic and serial.

| file | models |
|---|---|
| `PublicationTables.dfy` | the publication and step tables of a campaign package under their triggers, CHECKs and indexes |
| `PublicationWorker.dfy`, `PublicationWorkerInPlace.dfy`, `PublicationRuns.dfy`, `PublicationProgress.dfy`, `PublicationLifecycle.dfy`, `PublicationRecords.dfy` | the worker on top of those tables: one cycle, the same in place with what is committed on its way and rolled back, whole runs with resume, undo and edits, how far they get, the undo grace, the package table that takes their moves, and what they put on record |
| `PackagePlan.dfy`, `SortedStrings.dfy` | the plan of steps derived from a package's tree, its bounds, and its run to the end |
| `CampaignPackages.dfy`, `HashRotation.dfy` | the package table; hashes that must rotate with the content they stand for |
| `RateLimiter.dfy`, `RateLimiterInPlace.dfy`, `RateAdmission.dfy`, `Recency.dfy`, `RealArithmetic.dfy` | the token-bucket limiter with its LRU bound, exactly which calls it lets through, the two-budget limiter and the choice of a rule |
| `ConfirmedMutation.dfy`, `PresenceConfirmation.dfy`, `ChallengeLedger.dfy`, `ApiError.dfy` | the one-shot confirmation protocol and its two variants that first ask for presence |
| `AuditChain.dfy` | the append-only decision log and its hash chain |
| `PhysicalViews.dfy`, `DistinctRows.dfy` | the views over several connections' reports of one external account |
| `Workspaces.dfy` | the backfill that adopts jobs and drafts into workspaces |
| `EntityHierarchy.dfy` | accounts and the tree of entities under them |
| `SignedContext.dfy` | proposals, approvals, executions and reservations, and the context signed along that chain |
| `HardCaps.dfy`, `Decimals.dfy`, `Separators.dfy` | spend caps: typed amounts, the form, the caps in effect and what is announced |
| `Csv.dfy` | CSV printing and a reader that undoes it |
| `Wrappers.dfy` | an option type |

## Where the code does less than it says

Each of these is proved, with the exact condition under which the intended property holds.

- Steps in order (`PublicationSaga.OrderedExactlyWhenDisciplined`): the guards let a pending step be inserted
  beneath one already sent. The worker never does so (`PublicationWorker.StepsRunInOrder`).
- Retrying a registration (`PublicationRuns.GetsStuckExactlyByAMiss`, `StuckForever`): the comments at
  `src/safent_ads/packages/application/run_package_publication.py:241-251` say that a resumed publication
  registers the created entity again. It cannot: the step is already done, the next cycle first tries to
  write it as running, the guard rejects that, and the cycle rolls back, each time.
- No second proposal, no lost one (`PublicationRuns.OrphanedExactlyByALostTail`, `OrphanedForever`): lines 226-228
  and 297-300 of the same file want a proposal never to be made twice. The chokepoint commits the cycle's session
  before the row knows the proposal; if the rest of the cycle is lost, the next one proposes again, and either the
  first proposal, where it is still live, or the unique idempotency key of its execution turns that down, each time.
  A step is never executed twice, but the publication never gets past it.
- Resuming (`PublicationProgress.StuckExactly`): a third way of being stuck is an execution that is over without the
  write, failed or blocked, after its row came to know it (`PublicationRuns.OverExactlyWhenEndedInVain`,
  `OverForever`): it is only read again. Where the package lets a publication go on and its step has what it needs,
  these three are all the ways: in any other state one or two events move it on.
- A failed package created nothing (`PublicationRuns.FailedMeansNothingCreated`, `FailsInDoubtExactly`): the comment
  at lines 674-684 wants a package with a step in doubt never to be declared failed. It is, after a resume in doubt
  or a cycle that lost its tail once the platform was called, if a check then stops it before anything visible is
  done.
- Steps that are written (`SignedContext.StepApprovalIsTakenExactly`, `PublicationProgress.PublishesExactlyWithTheChain`):
  the repository of authorizations that is wired to the executor
  (`src/safent_ads/proposals/infrastructure/sql_authorization_repository.py:68-83`,
  `src/safent_ads/composition/container.py:172`) does not write the column that
  `alembic/versions/0045_package_step_auth_chain.py:28-36` demands of every package step, so the tables take a step's
  approval in no state. Each cycle that proposes a step then breaks off before the first commit
  (`ProposalsAreTurnedDown`), and packages publish nothing but uploads (`NothingGetsThrough`). With a repository that
  writes the column some run publishes, without it none does: which of the two it is is an input of each cycle, and
  only the results on good cycles suppose the one that does.
- Nothing is written within the grace (`PublicationLifecycle.NothingIsSentInGraceExactly`, `EditedInGraceIsSent`): lines
  154-158 of that file promise it, for the 45 seconds in which undoing cancels all. Putting the creative in place again
  that is there already invalidates the package and leaves its hash as it was
  (`src/safent_ads/packages/domain/campaign_package.py:533-567`); the checks before a step compare the hash only
  (lines 464-479 of the worker), so the next cycle sends a step for the invalidated package, within the grace too, and
  undoing changes nothing any more. Without an edit nothing is sent (`NothingIsSentInGrace`).
- Old hash, new content (`CampaignPackages.OldHashNewPlan`, `HashRotation.IdentifiesExactlyWhenHonest`): the
  guards on packages and proposals ask for another hash, not for one that was never used.
- busy (`ConfirmedMutations.BusyIsExactUnlessStaleStart`, `PresenceConfirmations.BusyIsExactUnlessChallenged`): the
  flag sticks after a start from an outdated render, and in the two variants after a challenge that arrives
  while a confirmation is in flight.
- Important means signed (`SignedContext.SignedExactlyWhenNotRaised`, `LiveExactlyWhenUncut`): the guard looks at the
  classification when the approval is written, trusts a mark that any approval may carry (`TheMarkIsEnough`), and
  calls a chain live that revocations do not cut (`RevokingDoesNotCutTheChain`). Each failure is reached from empty
  tables.
- What is confirmed is what was attempted (`PresenceConfirmations.ConfirmedAsAttemptedExactlyWhenUnchanged`): the two
  variants freeze their variables only when the challenge arrives.
- Ignoring the panel is never looser (`HardCaps.NoWithdrawalRaisesUnannounced`, `LosingThePanelCanLoosen`): stated at
  `src/safent_ads/broker/domain/hard_caps_policy.py:7-12`, and false wherever the panel's caps are below the
  file's.
- One upload per image (`PackagePlan.ShownExactlyWhenFirst`, `AllShownExactlyWhenStartsDiffer`): uploads are planned per
  checksum, but keep its first twelve characters only, and upload the first image of the tree that begins so
  (`src/safent_ads/packages/domain/approval_envelope.py:202-211`). An image is uploaded, and shown where it stands, if
  and only if no other image stands before it and begins alike; otherwise that one is shown in its place
  (`OneImageShownForTwo`).
- Metrics that fall out (`PhysicalViews.CountedExactlyWhenAccountAgrees`), entities that freeze
  (`EntityHierarchy.ConnectingFreezesEntities`), a chain out of order
  (`AuditChain.ChainedExactlyWhenNumbersRise`), metadata outside the hash (`AuditChain.MetadataIsNotCovered`) and
  reservations led to another binding (`SignedContext.ReservationsBoundExactlyWhenLinksHold`).

## Model

| member | source | states |
|---|---|---|
| `PublicationSaga.OrderedExactlyWhenDisciplined` | alembic/versions/0042_campaign_packages.py:313-367 | At every moment of a history "below a step that was sent everything is done" holds if and only if the history never inserts a step beneath one already sent: that is the only hole the guards leave |
| `PublicationSaga.OrderedStep` | alembic/versions/0042_campaign_packages.py:342-349 | One statement on ordered tables keeps the order if and only if it is not an insert beneath a sent step |
| `PublicationSaga.OrderMeansOneAtATime` | alembic/versions/0042_campaign_packages.py:203-209 | From the order alone, without the unique index: at most one step of a publication is running or unknown, done steps form an initial segment, and nothing above an unknown step was sent |
| `PublicationSaga.LateInsertsAreAccepted` | alembic/versions/0042_campaign_packages.py:313-317 | Wherever a step was sent and a lower place is free, the guards take a pending step into it and the order is broken |
| `PublicationSaga.LateInsertIsReachable` | alembic/versions/0042_campaign_packages.py:313-349 | Three accepted statements lead to a running step above a free place |
| `PublicationSaga.ActivationIsAlwaysLast` | alembic/versions/0042_campaign_packages.py:351-363 | In every reachable state the activation has the greatest index of its publication |
| `PublicationSaga.ActivationRunsAlone` | alembic/versions/0042_campaign_packages.py:342-363 | In a disciplined history there is one activation only, and it is sent only when every other step is done |
| `PublicationSaga.RowsAreChecked` | alembic/versions/0042_campaign_packages.py:164-198 | In every reachable state each row keeps its CHECKs, each step has its publication, and no package has two publications |
| `PublicationSaga.ReceiptsAreFinal` | alembic/versions/0042_campaign_packages.py:318-331 | For as long as a step's row exists its place in the plan never changes, done stays done and the confirmed entity stays the one confirmed |
| `PublicationSaga.ConfirmedHashMayChange` | alembic/versions/0049_package_step_state_hash.py:31-37 | The state hash confirmed with a receipt is not so protected: a done step accepts any other one |
| `PublicationSaga.FinishedIsFinal` | alembic/versions/0042_campaign_packages.py:48-55 | Once all steps including the activation are done, no accepted statement changes any step's state, and any accepted insert goes beneath a sent step |
| `PublicationSaga.PublicationsEvolve` | alembic/versions/0042_campaign_packages.py:279-299 | Over any history a publication keeps its package and signature, its cursor never goes back, completed stays completed and pending is never entered again |
| `PublicationSaga.StepMovesExactly` | alembic/versions/0042_campaign_packages.py:48-55 | Some history from empty tables takes a step from one state to another if and only if it is one of those listed right before it: done steps and steps in doubt are not sent again |
| `PublicationSaga.PublicationMovesExactly` | alembic/versions/0042_campaign_packages.py:42-47 | The same for publications |
| `PublicationSaga.StepWalksAreTaken` | alembic/versions/0042_campaign_packages.py:48-55 | Any walk of a step along those moves is taken from empty tables, every retry and every doubt resolved |
| `PublicationSaga.PublicationWalksAreTaken` | alembic/versions/0042_campaign_packages.py:42-47 | Any walk of a publication likewise |
| `PublicationSaga.TurnComesExactly` | alembic/versions/0042_campaign_packages.py:342-349 | In every reachable state a waiting, blocked or failed step is taken as running if and only if all below it are done and no other is running |
| `PublicationSaga.OutcomeIsTakenExactly` | alembic/versions/0042_campaign_packages.py:318-335 | In every reachable state the outcome of a step under way or in doubt is taken if and only if it keeps the plan, moves on and has receipts as the columns say |
| `PublicationSaga.StepIsAddedExactly` | alembic/versions/0042_campaign_packages.py:164-198 | A step is taken into the plan exactly when its place is free, it waits without receipts, stands after no activation, and its references are as its kind demands |
| `PublicationSaga.PublicationIsAddedExactly` | alembic/versions/0042_campaign_packages.py:142-166 | A publication is added exactly when it is pending, its package has none and it says nothing yet of how it went |
| `PublicationSaga.PublicationIsTakenExactly` | alembic/versions/0042_campaign_packages.py:279-299 | An update of a publication is taken exactly when package, authorization, cursor, state, reason, failed step and end are as the guard and the CHECKs say |
| `PublicationSaga.PublicationTables.Insert` | alembic/versions/0042_campaign_packages.py:267-304 | The row is taken exactly when the insert is acceptable, and the tables become what the statement specifies |
| `PublicationSaga.PublicationTables.Update` | alembic/versions/0042_campaign_packages.py:279-299 | The guard on publications as run in place: same acceptance and same new state as specified |
| `PublicationSaga.PublicationTables.Delete` | alembic/versions/0042_campaign_packages.py:177-178 | Deleting a publication takes its steps with it |
| `PublicationSaga.PublicationTables.InsertStepRow` | alembic/versions/0042_campaign_packages.py:313-367 | A step is born pending and passes order, activation, CHECKs, keys and index, or nothing changes |
| `PublicationSaga.PublicationTables.UpdateStepRow` | alembic/versions/0042_campaign_packages.py:318-367 | An update of a step keeps plan and receipt, follows the transition table and passes the shared guards, or nothing changes |
| `PublicationSaga.PublicationTables.Fits` | alembic/versions/0042_campaign_packages.py:342-363 | The guards that inserts and updates of a step share, evaluated in the database's order, decide exactly the specified condition |
| `CampaignPackages.PublishingWasApproved` | alembic/versions/0042_campaign_packages.py:31-40 | Every entry into publishing, a retry after failure or partial publication included, has an approved moment since which the package was never a draft or proposed |
| `CampaignPackages.PastApprovalWasApproved` | alembic/versions/0042_campaign_packages.py:31-40 | Whoever is approved, publishing, verifying, partially published, published or failed was approved since its latest proposal |
| `CampaignPackages.OneOpenAlways` | alembic/versions/0042_campaign_packages.py:130-137 | In every reachable state a business has at most one open package per account and offering |
| `CampaignPackages.HomeAndEndAreFinal` | alembic/versions/0042_campaign_packages.py:232-237 | A package never changes business, platform, account or offering, and published, rejected, expired and invalidated are final |
| `CampaignPackages.PackageHashIdentifiesPlan` | alembic/versions/0042_campaign_packages.py:239-244 | Over a package's whole history equal hashes stand for equal plans if and only if no rotation brings an old hash back for another plan |
| `CampaignPackages.OldHashNewPlan` | alembic/versions/0042_campaign_packages.py:239-244 | The trigger alone does not see to that: from any package two accepted updates leave its hash as it was over any other plan |
| `CampaignPackages.MovesExactly` | alembic/versions/0042_campaign_packages.py:31-40 | Some history from the empty table takes a package from one state to another if and only if it is one of those listed right before it |
| `CampaignPackages.WalksAreTaken` | alembic/versions/0042_campaign_packages.py:31-40 | Any walk along those moves, of any length, is taken from the empty table, every statement of it |
| `CampaignPackages.BornExactly` | alembic/versions/0042_campaign_packages.py:130-137 | A package is inserted exactly when it is draft or proposed and no other draft or proposal stands for its business, account and offering |
| `CampaignPackages.UpdatedExactly` | alembic/versions/0042_campaign_packages.py:233-252 | An update is taken exactly when it keeps the home, gives another plan another hash, makes a move or none, and opens the package only where no other is open |
| `HashRotation.IdentifiesExactlyWhenHonest` | alembic/versions/0042_campaign_packages.py:239-244 | For any guarded history of hash and content, identification and honest rotation are equivalent |
| `CampaignPackages.PackageTable.InsertRow` | alembic/versions/0042_campaign_packages.py:221-230 | A package is born draft or proposed, and not beside an open one of the same offer |
| `CampaignPackages.PackageTable.UpdateRow` | alembic/versions/0042_campaign_packages.py:232-256 | Ownership, hash rotation, transition and index are checked in turn; the row changes exactly when all hold |
| `PublicationWorker.CompletedMeansEveryStepDone` | src/safent_ads/packages/application/run_package_publication.py:130-522 | In every run from an approval, through cycles that may break off anywhere, resumes, undo and edits: the package counts as published exactly when its publication is completed, and then every step of the signed plan is done |
| `PublicationWorker.StepsRunInOrder` | src/safent_ads/packages/application/run_package_publication.py:179-270 | In every such run, below any step on record every step is done: the worker meets the discipline the tables need |
| `PublicationWorker.RunKeeps` | src/safent_ads/packages/application/run_package_publication.py:603-710 | The invariant behind both: done below the cursor, nothing above it, nothing running at it; a row knows only the proposal its execution carries out, and is left pending only where it lost that proposal |
| `PublicationWorker.SavedKeeps` | src/safent_ads/execution/infrastructure/sql_unit_of_work.py:77-86 | What the chokepoint commits inside a cycle, which no rollback undoes, keeps that invariant too |
| `PublicationWorker.GuardsTakeEverythingButRepeats` | src/safent_ads/packages/application/run_package_publication.py:272-323 | The guards take the two or three rows the worker writes about its next step exactly when that step is not already done and the columns have room for the report |
| `PublicationWorker.PersistFacts` | src/safent_ads/packages/application/run_package_publication.py:272-323 | What is archived: the report's state (a blocked repeat of a failed step as failed), its receipt, and the first known proposal |
| `PublicationLifecycle.GraceHolds` | src/safent_ads/packages/application/run_package_publication.py:152-163 | For 45 seconds after an approval a cycle changes nothing, whatever the plan and the world |
| `PublicationLifecycle.UndoneInGraceExactly` | src/safent_ads/packages/application/undo_package_publication.py:101-129 | Undoing an approved package in that time invalidates it and halts its publication, with steps, executions and cursor as they are; later, or in any other state, it changes nothing |
| `PublicationLifecycle.ResumesExactly` | src/safent_ads/packages/application/resume_package_publication.py:75-136 | A publication resumes if and only if it was halted under a partially published package or one being verified, or runs under one being verified; it then runs with nothing said of an end, and otherwise nothing changes |
| `PublicationLifecycle.NothingIsSentInGrace` | src/safent_ads/packages/application/run_package_publication.py:152-163 | In every run from an approval, before a cycle 45 seconds or more after it, no step of the publication is on record and no execution was taken up, as long as the package is not edited |
| `PublicationLifecycle.NothingIsSentInGraceExactly` | src/safent_ads/packages/application/run_package_publication.py:442-486 | Edits included, that holds at every moment if and only if no cycle gets past the checks with a package already invalidated and leaves something behind: the checks compare the content, not the state |
| `PublicationLifecycle.EditedInGraceIsSent` | src/safent_ads/packages/domain/campaign_package.py:533-567 | Such a run from any approval: the package is edited into what it was, and within the grace its first step is carried out |
| `PublicationLifecycle.MovesAreTaken` | alembic/versions/0042_campaign_packages.py:31-40 | What any event of any run does to the package is nothing, or one or two updates that the package table takes of a row in that state |
| `PublicationRecords.StepIsCalledExactly` | src/safent_ads/packages/application/run_package_publication.py:181-214 | The executor is called for a step if and only if the one step before it that its parent names, and the first step of each name it leans on, are done with a receipt, and before an activation as many of the package's ads are done as were signed |
| `PublicationRecords.CycleWritesOne` | src/safent_ads/packages/application/run_package_publication.py:181-240 | A cycle writes no step but the one at the cursor, only once it has what it needs and before it is done, committed on the way or at the end |
| `PublicationRecords.NothingIsSentUngrounded` | src/safent_ads/packages/application/run_package_publication.py:527-596 | In every run from an approval no step is on record, so none is proposed or sent, before its parent and all it leans on are done with a receipt |
| `PublicationRecords.DenialIsArchived` | src/safent_ads/packages/application/run_package_publication.py:216-240 | A step turned down before anything is proposed is archived as blocked or failed with that code, with nothing taken up |
| `PublicationRecords.EndedIsReadAgain` | src/safent_ads/packages/application/run_package_publication.py:224-240 | A step whose execution is over is archived with how that ended, whatever else is reported, and not taken up again |
| `PublicationRecords.HaltsPartiallyExactly` | src/safent_ads/packages/application/run_package_publication.py:656-722 | A cycle that halts the publication leaves the package partially published if it was being verified or a step other than an upload is done, and failed if not |
| `PublicationRecords.DoneStepsHaltExactly` | src/safent_ads/packages/application/run_package_publication.py:325-418 | A cycle that gets a step done halts the publication if and only if the registry misses it and was to know it: with a state hash, an activation or a step with a created entity |
| `PublicationRecords.OutcomeIsArchived` | src/safent_ads/packages/application/run_package_publication.py:271-318 | The row that archives a report carries all that was reported and the proposal first made for the step; its state is the verdict, save that a failed step now blocked stays failed |
| `PublicationRecords.WhatIsSaidIsSo` | src/safent_ads/packages/application/run_package_publication.py:603-710 | In every run from an approval a publication that names a failed step has stopped at it for the reason its row bears out: its code if it failed or was blocked, the registry if it was done, or what it needed and did not have; and it has an end exactly when it is halted or completed |
| `PublicationRecords.EndsAreDated` | src/safent_ads/packages/application/run_package_publication.py:603-710 | A cycle leaves the cursor or moves it one on, dates an end with its own moment, and halts at no step only for what it found before any step or for an internal error |
| `PublicationRuns.GetsStuckExactlyByAMiss` | src/safent_ads/packages/application/run_package_publication.py:237-260 | A whole or broken-off cycle leaves the cursor on a step already done if and only if the platform confirmed the step, the registry of entities then missed, and nothing interrupted the cycle |
| `PublicationRuns.StuckIsReachable` | src/safent_ads/packages/application/run_package_publication.py:237-260 | Such a cycle right after an approval |
| `PublicationRuns.StuckForever` | src/safent_ads/packages/application/resume_package_publication.py:73-134 | From there no run of retries, resumes, undo or edits ever moves the cursor, changes a step or publishes the package, although the halt promises a retry |
| `PublicationRuns.CallCommits` | src/safent_ads/packages/application/run_package_publication.py:219-270 | A cycle that reaches the executor and is not interrupted commits to its end if and only if no new proposal is turned down, the columns take the report and the package may move on |
| `PublicationRuns.OrphanedExactlyByALostTail` | src/safent_ads/execution/application/chokepoint.py:181-214 | A cycle leaves the next step with an execution whose proposal its row does not know if and only if it proposed the step, the approval was taken, the chokepoint committed, and then an error, a report the row cannot take or the package cost it its tail |
| `PublicationRuns.OrphanStep` | src/safent_ads/execution/infrastructure/sql_execution_queue.py:232-245 | From there a cycle that proposes the step again is undone whole, at the latest by the unique idempotency key, and no other event moves execution or cursor |
| `PublicationRuns.OrphanedForever` | src/safent_ads/execution/infrastructure/sql_execution_queue.py:314-319 | So no run of retries, resumes, undo or edits ever gets past that step or publishes the package |
| `PublicationRuns.OverExactlyWhenEndedInVain` | src/safent_ads/packages/infrastructure/chokepoint_step_executor.py:524-569 | A cycle leaves the next step with an execution that its row knows and that is over without a confirmed write if and only if the chokepoint took the step up, reported it failed or blocked, and the cycle committed (or it committed a confirmation that the row cannot take) |
| `PublicationRuns.OverForever` | src/safent_ads/execution/infrastructure/sql_execution_queue.py:104-125 | Such an execution is never claimed again: no run of retries, resumes, undo or edits gets past that step or publishes the package |
| `PublicationRuns.OverStep` | src/safent_ads/packages/infrastructure/chokepoint_step_executor.py:206-222 | Every event leaves it over, and execution and cursor as they are |
| `PublicationRuns.OverIsReachable` | src/safent_ads/packages/application/resume_package_publication.py:112-122 | Such an end from an approval: the first step's outcome is unknown and is then read as failed; the package may be resumed, in vain |
| `PublicationProgress.StuckExactly` | src/safent_ads/packages/application/resume_package_publication.py:73-134 | Of a publication that its package lets go on and whose step has what it needs: no run at all moves the cursor if and only if the step is done already, has lost its proposal or has an execution that is over in vain |
| `PublicationProgress.NeverMovesOn` | src/safent_ads/packages/application/resume_package_publication.py:73-134 | In those three cases no run moves the cursor |
| `PublicationProgress.SomeRunMovesOn` | src/safent_ads/packages/application/run_package_publication.py:603-645 | In all others one or two events do |
| `SignedContext.StepApprovalIsTakenExactly` | src/safent_ads/proposals/infrastructure/sql_authorization_repository.py:68-83 | The signed approval of a step is taken if and only if the repository writes the column it derives from, the row it derives from, its unbound proposal and, where a person is needed, a person's approval of a package stand, and the step was not approved before: without the column, in no state |
| `SignedContext.OtherKindsAreWrittenWhole` | src/safent_ads/proposals/infrastructure/sql_authorization_repository.py:68-83 | The columns left out are empty for every other kind of authorization of a proposal, and for no step |
| `SignedContext.MovesExactly` | alembic/versions/0008_proposals.py:135-152 | Some history from empty tables takes a proposal from one state to another if and only if it is one of those listed right before it, or it is revised back to pending with another value and hash |
| `PublicationProgress.ProposalsAreTurnedDown` | src/safent_ads/packages/infrastructure/chokepoint_step_executor.py:396-418 | With a repository that leaves the column out, a cycle that proposes a step changes nothing |
| `PublicationProgress.NothingGetsThrough` | src/safent_ads/packages/infrastructure/chokepoint_step_executor.py:396-418 | With such a repository, however long the worker runs nothing visible is ever done and the package is never published |
| `PublicationProgress.PublishesExactlyWithTheChain` | src/safent_ads/proposals/infrastructure/sql_authorization_repository.py:68-83 | From the approval of a plan as derived, some run publishes the package if and only if the repository writes the column |
| `PublicationRuns.ProposalsAreKept` | src/safent_ads/execution/domain/execution_attempt.py:55-64 | In any run, wherever cycles break off, a step is executed for one proposal only, and a row that knows the proposal keeps it |
| `PublicationRuns.FailedMeansNothingCreated` | src/safent_ads/packages/application/run_package_publication.py:656-710 | At every moment of a run from an approval a failed package has nothing visible done and no step that may exist on the platform, and a package with such a step is in no state to fail: if and only if nobody resumes in doubt and no cycle loses its tail after calling the platform while publishing |
| `PublicationRuns.HonestStep` | src/safent_ads/packages/application/run_package_publication.py:656-710 | The same for one event: these two are the only ones that put it at risk |
| `PublicationRuns.FailsInDoubtExactly` | src/safent_ads/packages/application/run_package_publication.py:673-702 | With a step in doubt, a cycle declares the package failed if and only if the package is publishing, nothing visible is done and the cycle stops before calling the platform or the executor turns the step down |
| `PublicationRuns.FailedInDoubtIsReachable` | src/safent_ads/packages/application/resume_package_publication.py:112-122 | Such a run from an approval: unknown outcome, halt, resume, halt; the package reads failed and cannot be resumed while its campaign may exist |
| `PublicationRuns.FailedAfterALostCallIsReachable` | src/safent_ads/execution/application/chokepoint.py:318-338 | And a run in which nobody resumes: the first call is made, its tail lost, and a check stops the next cycle; the package reads failed, its campaign may exist and its step has lost its proposal |
| `PublicationProgress.GoodCyclesComplete` | src/safent_ads/packages/application/run_package_publication.py:603-645 | From an approval of a plan as derived, one undisturbed cycle per step publishes the package |
| `PublicationProgress.GoodCyclesProgress` | src/safent_ads/packages/application/run_package_publication.py:603-645 | Each of those cycles moves the cursor by exactly one step and leaves its receipt |
| `PackagePlan.PlansFitTheEnvelope` | src/safent_ads/packages/domain/approval_envelope.py:58-81 | Every legal package has from 3 to 29 steps, and the bounds on each ad set already imply those on the package: at most 12 ads, and 12 uploads where 20 are allowed |
| `PackagePlan.GridIsLegalExactly` | src/safent_ads/packages/domain/campaign_package.py:259-264 | Packages of equal ad sets without asset groups are legal exactly from one ad set to three with one to four ads each, and the largest has the twelve ads a package may have |
| `PackagePlan.LongestExactlyWhenFull` | src/safent_ads/packages/domain/approval_envelope.py:58-80 | 29 steps exactly with three ad sets, twelve ads and twelve different images |
| `PackagePlan.UploadsAreTheImages` | src/safent_ads/packages/domain/approval_envelope.py:305-311 | One upload is planned for each different checksum among the images of ads and asset groups, in the order of the checksums |
| `SortedStrings.AscendingIsUnique` | src/safent_ads/packages/domain/approval_envelope.py:305-306 | Sorting a set of checksums has one result: the elements alone decide it |
| `PackagePlan.DerivedPlansCanBeRun` | src/safent_ads/packages/domain/approval_envelope.py:270-302 | Every plan derived from a legal package ends in its only activation, gives each step one earlier parent, uploads each image before its use, and has the activation wait for exactly the package's ads |
| `PackagePlan.ProposedPackagesPublish` | src/safent_ads/packages/domain/approval_envelope.py:270-302 | From the approval of any legal package, one undisturbed cycle per derived step publishes it |
| `PackagePlan.DeriveStepPlan` | src/safent_ads/packages/domain/approval_envelope.py:270-312 | The plan appended step by step in loops is the derived plan, with the package's checksums distinct and sorted |
| `PackagePlan.AppendUploads` | src/safent_ads/packages/domain/approval_envelope.py:305-311 | Uploads are appended one by one, one per checksum, each with the first image of the tree that has its reference |
| `PackagePlan.AppendAdSets` | src/safent_ads/packages/domain/approval_envelope.py:277-285 | Ad sets are appended in order, each with its place as reference |
| `PackagePlan.AppendAds` | src/safent_ads/packages/domain/approval_envelope.py:287-289 | The ads of all ad sets are appended, ad set by ad set |
| `PackagePlan.AppendAdsOf` | src/safent_ads/packages/domain/approval_envelope.py:330-341 | The ads of one ad set are appended in order under that ad set |
| `PackagePlan.AsManyPlacesAsAds` | src/safent_ads/packages/domain/approval_envelope.py:186-199 | The activation expects as many done steps as the plan has places for ads, asset groups counted as ads |
| `PackagePlan.ParentsAreUnique` | src/safent_ads/packages/domain/approval_envelope.py:275-301 | Every parent reference names exactly one earlier step |
| `PackagePlan.SourcesComeFirst` | src/safent_ads/packages/domain/approval_envelope.py:314-328 | Every image a step depends on is the reference of an earlier step |
| `PackagePlan.ShownExactlyWhenFirst` | src/safent_ads/packages/domain/approval_envelope.py:202-211 | For every image of every tree: the step that its reference resolves to uploads that image, and it is uploaded at all, if and only if no other image stands before it in the tree and begins with the same twelve characters |
| `PackagePlan.AllShownExactlyWhenStartsDiffer` | src/safent_ads/packages/domain/holes.py:15-16 | Every image of a package is shown in its own places if and only if no two of them begin with the same twelve characters |
| `PackagePlan.OneImageShownForTwo` | src/safent_ads/packages/domain/approval_envelope.py:202-211 | Of two ads of a legal package whose different images begin alike both show the first one's, and the second one's is never uploaded |
| `PackagePlan.WrongImageIsReachable` | src/safent_ads/packages/domain/approval_envelope.py:202-211 | Two such checksums |
| `PackagePlan.FindImage` | src/safent_ads/packages/domain/approval_envelope.py:202-211 | The loop finds the first image of the tree with the reference, or none |
| `PublicationWorkerInPlace.Worker.RunCycle` | src/safent_ads/composition/worker.py:183-216 | One cycle in place on one session: its end is committed, or it goes back to the chokepoint's last commit, and a package refusal halts the publication |
| `PublicationWorkerInPlace.Worker.RunUntilEnd` | src/safent_ads/packages/application/run_package_publication.py:130-177 | Terminal publications and the grace period do nothing; then the checks before the step, then the step |
| `PublicationWorkerInPlace.Worker.RunStep` | src/safent_ads/packages/application/run_package_publication.py:179-270 | Structure, parent and images are required in turn, then the outcome is archived and concluded as specified |
| `PublicationWorkerInPlace.Worker.CallStep` | src/safent_ads/packages/application/run_package_publication.py:213-270 | Pending row, executor, archived outcome and conclusion, with what the executor committed in between |
| `PublicationWorkerInPlace.Worker.ExecuteStepOf` | src/safent_ads/packages/infrastructure/chokepoint_step_executor.py:178-222 | Uploads, known proposals, denials and new proposals; an execution that is over is read again; nothing comes back exactly when no approval is taken or the key is |
| `PublicationWorkerInPlace.Worker.RunChokepoint` | src/safent_ads/execution/application/chokepoint.py:102-404 | Its commits one after the other, after the gates, before the call and with a confirmation: which was the last, and what it records of the execution |
| `PublicationWorkerInPlace.Worker.OpenRow` | src/safent_ads/packages/application/run_package_publication.py:213-217 | The pending row is inserted exactly where there is none |
| `PublicationWorkerInPlace.Worker.PersistOutcome` | src/safent_ads/packages/application/run_package_publication.py:272-323 | On the opened row, the sequence of upserts ends as the specified transaction |
| `PublicationWorkerInPlace.Worker.UpsertRow` | src/safent_ads/packages/infrastructure/sql_package_step_repository.py:71-79 | An update, or an insert where there was no row |
| `PublicationWorkerInPlace.Worker.AdvanceRow` | src/safent_ads/packages/infrastructure/sql_publication_repository.py:104-124 | The publication row is advanced exactly when its guard accepts |
| `PublicationWorkerInPlace.Worker.CountAdsDone` | src/safent_ads/packages/application/run_package_publication.py:413-440 | The loop counts exactly the done steps that are ads |
| `PublicationWorkerInPlace.Worker.CountVisibleDone` | src/safent_ads/packages/application/run_package_publication.py:712-723 | The loop counts exactly the done steps an owner would see, so it is positive exactly when one exists |
| `PublicationWorkerInPlace.Worker.FindParent` | src/safent_ads/packages/application/run_package_publication.py:548-579 | The step's parent is found exactly when one single earlier step creates it |
| `PublicationWorkerInPlace.Worker.FindByLocalRef` | src/safent_ads/packages/application/run_package_publication.py:744-748 | The first step of a local reference, or none exactly when there is none |
| `PublicationWorkerInPlace.Worker.ResolveSources` | src/safent_ads/packages/application/run_package_publication.py:581-597 | Images resolve exactly when each was uploaded by its first step and left a handle |
| `PublicationWorkerInPlace.Worker.HaltHere` | src/safent_ads/packages/application/run_package_publication.py:656-710 | Halting ends the package partially published or failed as specified |
| `PublicationWorkerInPlace.Worker.ProceedFrom` | src/safent_ads/packages/application/run_package_publication.py:603-645 | Advancing completes the publication exactly at the last step |
| `PublicationWorkerInPlace.Worker.StayHere` | src/safent_ads/packages/application/run_package_publication.py:523-546 | An unknown outcome keeps the publication running and makes the package verifying |
| `PublicationWorkerInPlace.Worker.ConcludeStep` | src/safent_ads/packages/application/run_package_publication.py:499-521 | What follows from the report, registry included, as specified |
| `RateLimiting.BoundedAnswersAsUnbounded` | src/safent_ads/composition/api.py:1018-1048 | Whenever every key that returns after its bucket may have been dropped has been idle for a full refill, the bounded limiter answers each call as one with an unbounded map |
| `RateLimiting.WindowBound` | src/safent_ads/composition/api.py:1028-1044 | Over any window of any interleaving the calls let through for a key are at most one capacity per lifetime of its bucket plus the window's refill; without eviction, capacity plus refill |
| `RateLimiting.WindowBoundAtConstantRate` | src/safent_ads/composition/api.py:1038-1044 | The same as capacity * lifetimes + refill * seconds |
| `RateAdmission.LetThroughExactly` | src/safent_ads/composition/api.py:1028-1044 | As long as its bucket is not dropped, a call is let through if and only if in every window that ends with it no more of the key's calls, this one included, are let through than a full bucket and the window's refill allow |
| `RateAdmission.BurstPasses` | src/safent_ads/composition/api.py:1041-1044 | As long as its bucket is not dropped, a key that starts with a full one has its first capacity calls let through, however close together and whatever else is called |
| `RateLimiting.OrderIsRecency` | src/safent_ads/composition/api.py:1026-1048 | After every history the dictionary's order is the recency order of the last 10,000 keys, and never more are held |
| `RateLimiting.PresentExactlyWhenRecent` | src/safent_ads/composition/api.py:1046-1048 | A key has a bucket exactly when it was called and fewer than 10,000 distinct other keys were called since |
| `RateLimiting.TokensInRange` | src/safent_ads/composition/api.py:1038-1043 | In every history a bucket holds between nothing and its capacity |
| `RateLimiting.DeniedCallsAreInvisible` | src/safent_ads/composition/api.py:1038-1044 | Striking any set of denied calls from a key's history changes no other answer, past or future |
| `RateLimiting.KeysAreIsolated` | src/safent_ads/composition/api.py:1028-1044 | While its bucket is not dropped, a key is answered by its own calls alone |
| `RateLimiting.SpacedCallsPass` | src/safent_ads/composition/api.py:1038-1044 | A call at least one token's refill after the key's previous one is always let through |
| `RateLimiting.DecideSpends` | src/safent_ads/composition/api.py:1038-1044 | What a call takes and leaves is exactly what the bucket held with the refill since, cut at the capacity, and it takes one exactly when that is one or more |
| `RateLimiterInPlace.Bucket.Spend` | src/safent_ads/composition/api.py:1038-1044 | The bucket is refilled and spent in place exactly as specified |
| `RateLimiterInPlace.TokenBucketRateLimiter.Allow` | src/safent_ads/composition/api.py:1028-1044 | The call in place: the answer and the whole new dictionary with its order are those of the specification |
| `RateLimiterInPlace.TokenBucketRateLimiter.EvictIfFull` | src/safent_ads/composition/api.py:1046-1048 | The least recently used bucket goes exactly when the dictionary is full |
| `RateLimiterInPlace.McpRateLimiter.Allow` | src/safent_ads/composition/api.py:1082-1088 | The key's prefix picks one of two budgets and leaves every bucket of the other as it was |
| `RateLimiterInPlace.OnlySessionsUseTheSessionBudget` | src/safent_ads/composition/api.py:1108-1130 | No bearer or address, however chosen, reaches the session budget |
| `RateLimiterInPlace.RuleFor` | src/safent_ads/composition/api.py:1263-1267 | The loop returns the first rule whose prefix the path starts with, or none exactly when none does |
| `RateLimiterInPlace.RuleReachable` | src/safent_ads/composition/api.py:1263-1267 | A rule governs some path exactly when no rule before it has a prefix of its prefix |
| `ApiErrors.ChallengeFrom` | panel/src/utils/apiError.ts:91-101 | A challenge is taken exactly from a 428 with a token of 1 to 2048 characters that expires within the window; it is that token and that time |
| `ConfirmedMutations.TokensAreSentOnceAndInTime` | panel/src/hooks/useConfirmedMutation.ts:48-94 | In every interleaving each token sent is one accepted challenge's, sent before its expiry, once, with exactly the frozen content whose preparation drew it and which is on screen |
| `ConfirmedMutations.DistinctTokensAreSentOnce` | panel/src/hooks/useConfirmedMutation.ts:81-87 | If the server never issues a token twice, no token is ever sent twice |
| `ConfirmedMutations.OnlyConfirmSendsTokens` | panel/src/hooks/useConfirmedMutation.ts:74-94 | Only an explicit confirm sends a token, and at most one |
| `ConfirmedMutations.ConfirmSendsExactly` | panel/src/hooks/useConfirmedMutation.ts:74-87 | In every reachable state a click sends one request, with the accepted challenge's token and what its preparation froze, if and only if that challenge is pending with its token unspent, nothing is under way, the scope is the prepared one and it has not expired; otherwise it sends nothing |
| `ConfirmedMutations.ConfirmingInTimeSends` | panel/src/hooks/useConfirmedMutation.ts:48-87 | A start, a challenge of any token and time allowed, a delay and a click: the token is sent, with the variables of the start, if and only if the delay is shorter |
| `ConfirmedMutations.StartSendsExactly` | panel/src/hooks/useConfirmedMutation.ts:48-57 | A start sends one request without a token, for exactly what it was given, if and only if nothing is under way or pending |
| `ConfirmedMutations.PreparationsAreTheirStarts` | panel/src/hooks/useConfirmedMutation.ts:48-57 | In every run each preparation was sent by one start, with its variables, summary, scope and callbacks |
| `ConfirmedMutations.SuccessIsReportedExactly` | panel/src/hooks/useConfirmedMutation.ts:86-93 | Success is reported if and only if the answer to a confirmation that is still awaited says so, and the dialog then closes |
| `ConfirmedMutations.ChallengeIsAcceptedExactly` | panel/src/hooks/useConfirmedMutation.ts:57-72 | In every reachable state the answer to an awaited preparation is accepted as a challenge if and only if it is a 428 with a token of 1 to 2048 characters that expires within 125 seconds, and then waits on screen for the click |
| `ConfirmedMutations.WithdrawnIsNeverSent` | panel/src/hooks/useConfirmedMutation.ts:39-46 | After cancelling, or a change of scope or mounting, no request of any further run answers a challenge of a request from before |
| `ConfirmedMutations.ScopeIsTheLatest` | panel/src/hooks/useConfirmedMutation.ts:28-46 | In every reachable state the panel is in the scope last changed to, mounted if it was lately, and shows that it is submitting exactly while it is busy |
| `ConfirmedMutations.MessagesAreTrue` | panel/src/hooks/useConfirmedMutation.ts:57-94 | In every reachable state a mounted dialog says something if and only if it can no longer be confirmed and nothing is under way, and that is so: the challenge has expired, its token was sent, or the preparation drew none |
| `ConfirmedMutations.SuccessIsReportedOnce` | panel/src/hooks/useConfirmedMutation.ts:86-93 | Success is reported only for confirmed requests, at most once each |
| `ConfirmedMutations.StaleResponsesAreInert` | panel/src/hooks/useConfirmedMutation.ts:34-46 | After a scope change or unmount, the answer to any earlier request changes nothing on screen and reports nothing, through any further run |
| `ConfirmedMutations.BusyIsExactUnlessStaleStart` | panel/src/hooks/useConfirmedMutation.ts:48-94 | busy says "exactly one unresolved request of the current generation" at every moment of a run if and only if the run never starts an action from an outdated render |
| `ConfirmedMutations.BusyStep` | panel/src/hooks/useConfirmedMutation.ts:48-99 | One event keeps the flag exact precisely when it is not such a start |
| `ConfirmedMutations.StaleStartSticks` | panel/src/hooks/useConfirmedMutation.ts:48-72 | A start from an outdated render leaves the panel busy with nothing to release it |
| `ConfirmedMutations.RunInv` | panel/src/hooks/useConfirmedMutation.ts:48-94 | What every run keeps: all tokens sent are sound, and what is pending is an unspent accepted challenge shown on screen |
| `ConfirmedMutations.ConfirmedMutation.Prepare` | panel/src/hooks/useConfirmedMutation.ts:48-57 | The refs after a start, refused while busy or pending, are those of the specified step |
| `ConfirmedMutations.ConfirmedMutation.PreparationAnswered` | panel/src/hooks/useConfirmedMutation.ts:57-72 | The continuation of a preparation: stale answers change nothing, a challenge becomes pending |
| `ConfirmedMutations.ConfirmedMutation.ConfirmPending` | panel/src/hooks/useConfirmedMutation.ts:74-87 | The token is voided before it is sent, an expired one is not sent |
| `ConfirmedMutations.ConfirmedMutation.ConfirmationAnswered` | panel/src/hooks/useConfirmedMutation.ts:86-93 | Success is reported and closes the dialog only while current |
| `ConfirmedMutations.ConfirmedMutation.CancelPending` | panel/src/hooks/useConfirmedMutation.ts:96-99 | Cancelling is refused while busy and outdates every continuation |
| `ConfirmedMutations.ConfirmedMutation.ScopeChanged` | panel/src/hooks/useConfirmedMutation.ts:41-46 | A scope change outdates every continuation and clears the refs |
| `ConfirmedMutations.ConfirmedMutation.Unmounted` | panel/src/hooks/useConfirmedMutation.ts:39 | Unmounting outdates every continuation |
| `PresenceConfirmations.TokensAreSentOnceAndInTime` | panel/src/hooks/useRevokeGrantFlow.ts:78-154 | The same safety for both flows with a proof of presence: each token answers one accepted challenge, in time, once, with the variables frozen when the challenge arrived, on screen |
| `PresenceConfirmations.ConfirmedAsAttemptedExactlyWhenUnchanged` | panel/src/hooks/useRevokeGrantFlow.ts:95-108 | What is confirmed is what was attempted, at every moment, if and only if no object is changed between an attempt and its challenge |
| `PresenceConfirmations.ChangingMeanwhileIsReachable` | panel/src/hooks/useRevokeGrantFlow.ts:95-108 | In either flow an object that is changed between attempt and challenge is confirmed as changed |
| `PresenceConfirmations.ConfirmSendsExactly` | panel/src/hooks/useRevokeGrantFlow.ts:111-131 | In every reachable state a click sends one request, with the accepted challenge's token and what was frozen with it, if and only if that challenge is pending with its token unspent, nothing is under way and it has not expired |
| `PresenceConfirmations.ConfirmingInTimeSends` | panel/src/hooks/useHardCapsFlow.ts:79-150 | An attempt, a challenge, a delay and a click: the token is sent, with the variables attempted, if and only if the delay is shorter than the challenge's time |
| `PresenceConfirmations.AttemptsAreSent` | panel/src/hooks/useRevokeGrantFlow.ts:78-90 | Every attempt sends one request without a token, for what it was given |
| `PresenceConfirmations.AttemptsHaveTheirReason` | panel/src/hooks/useRevokeGrantFlow.ts:140-154 | In every run each request without a token was sent by an attempt with exactly its variables, or repeats a current confirmation whose proof of presence lapsed |
| `PresenceConfirmations.SuccessIsReportedExactly` | panel/src/hooks/useRevokeGrantFlow.ts:132-147 | The success of an attempt is reported as such, that of a confirmation if and only if it is current, and the dialog then closes |
| `PresenceConfirmations.ChallengeIsAcceptedExactly` | panel/src/hooks/useRevokeGrantFlow.ts:92-109 | The answer to an open attempt of a mounted panel is accepted if and only if it is a 428 with a token of 1 to 2048 characters that expires within 125 seconds; an error that is neither a challenge nor a demand for presence is shown by the hard caps flow alone |
| `PresenceConfirmations.WithdrawnIsNeverSent` | panel/src/hooks/useRevokeGrantFlow.ts:156-162 | After cancelling or unmounting, no request of any further run answers a challenge accepted before |
| `PresenceConfirmations.MessagesAreTrue` | panel/src/hooks/useHardCapsFlow.ts:107-175 | In every reachable state of either flow a mounted dialog says something if and only if it can no longer be confirmed and nothing is under way, and that is so: the challenge has expired, or its token was sent and refused for another reason than presence |
| `PresenceConfirmations.BusyIsExactUnlessChallenged` | panel/src/hooks/useHardCapsFlow.ts:107-167 | busy is exact at every moment if and only if no challenge arrives while a confirmation is in flight |
| `PresenceConfirmations.BusyStep` | panel/src/hooks/useRevokeGrantFlow.ts:92-162 | One event keeps the flag exact precisely when it is not such a challenge |
| `PresenceConfirmations.StuckUntilUnmount` | panel/src/hooks/useRevokeGrantFlow.ts:148-162 | Once stuck the dialog can be neither confirmed nor cancelled by any run without an unmount |
| `PresenceConfirmations.SecondAttemptSticks` | panel/src/hooks/useRevokeGrantFlow.ts:95-108 | In either flow a second attempt answered during the first confirmation gets stuck |
| `PresenceConfirmations.PresenceConfirmation.AttemptWith` | panel/src/hooks/useRevokeGrantFlow.ts:78-90 | An attempt is issued whatever is in flight |
| `PresenceConfirmations.PresenceConfirmation.AttemptAnswered` | panel/src/hooks/useRevokeGrantFlow.ts:92-109 | A challenge opens a new generation and replaces what was pending |
| `PresenceConfirmations.PresenceConfirmation.ConfirmPending` | panel/src/hooks/useRevokeGrantFlow.ts:111-131 | The token is voided before it is sent, an expired one is not sent |
| `PresenceConfirmations.PresenceConfirmation.ConfirmationAnswered` | panel/src/hooks/useRevokeGrantFlow.ts:132-154 | A current answer closes, retries presence or reports, and releases busy; an outdated one does nothing |
| `PresenceConfirmations.PresenceConfirmation.CancelPending` | panel/src/hooks/useRevokeGrantFlow.ts:156-162 | Cancelling is refused while busy |
| `PresenceConfirmations.PresenceConfirmation.Unmounted` | panel/src/hooks/useRevokeGrantFlow.ts:71-75 | Unmounting outdates every continuation |
| `AuditChain.SameTipSameLog` | alembic/versions/0002_audit_chain.py:53-68 | Two chained logs that end in the same hash have the same length and agree on every number and payload, or two different canonical strings with equal digest are exhibited |
| `AuditChain.CanonicalDecodesUniquely` | alembic/versions/0002_audit_chain.py:64-65 | Number, previous hash and payload are read back from the canonical string although payloads may hold bars |
| `AuditChain.CanonicalReads` | alembic/versions/0002_audit_chain.py:64-65 | The canonical string reads as the number in decimal, the previous hash and the payload, in this order, parted by bars |
| `AuditChain.ChainedExactlyWhenNumbersRise` | alembic/versions/0002_audit_chain.py:53-73 | The log is chained in number order at every moment if and only if every accepted insert took a number above the last |
| `AuditChain.InsertingBelowIsReachable` | alembic/versions/0002_audit_chain.py:53-73 | From the empty log two inserts break the chain, unless two different strings with equal digest are exhibited |
| `AuditChain.RowsAreForever` | alembic/versions/0002_audit_chain.py:76-98 | A row once in the log stays in it as it is, through any statements |
| `AuditChain.MetadataIsNotCovered` | alembic/versions/0002_audit_chain.py:64-65 | Exchanging the metadata of any row leaves the chain and its tip intact |
| `AuditChain.AppendChains` | alembic/versions/0002_audit_chain.py:53-68 | What the trigger builds in rising order is chained |
| `AuditChain.DecisionLog.InsertRow` | alembic/versions/0002_audit_chain.py:53-73 | The trigger in place: previous hash and digest are computed and the row enters exactly when number and hash are new |
| `AuditChain.DecisionLog.PreviousHash` | alembic/versions/0002_audit_chain.py:59-62 | The hash of the row with the greatest number, or the empty string |
| `AuditChain.DecisionLog.Verify` | alembic/versions/0002_audit_chain.py:53-68 | Recomputing the chain row by row decides exactly whether the log is chained |
| `PhysicalViews.EntitiesOncePerKey` | alembic/versions/0036_physical_metric_views.py:19-26 | The entity view has one row per physical object, misses none, and keeps the one with the first reference |
| `PhysicalViews.SameObjectExactly` | alembic/versions/0036_physical_metric_views.py:19-26 | Two entities are one physical object exactly when business, platform, level, external id and their accounts' external ids agree |
| `PhysicalViews.MetricsOncePerKeyAndSlot` | alembic/versions/0036_physical_metric_views.py:43-66 | Each metric view has exactly one row per physical object and slot that has a counted metric; no counted metric of the object and slot was ingested later, none ingested then has a higher revision, none of that revision an earlier reference |
| `PhysicalViews.PhysicalRefIsTheKeptEntity` | alembic/versions/0036_physical_metric_views.py:54-62 | The reference a metric row carries is that of the row the entity view keeps of the same object |
| `PhysicalViews.MetricsIgnoreScanOrder` | alembic/versions/0036_physical_metric_views.py:63-65 | The metric views are the same row for row in whatever order the tables are scanned |
| `PhysicalViews.EntitiesIgnoreScanOrder` | alembic/versions/0036_physical_metric_views.py:25 | So is the entity view |
| `PhysicalViews.CountedExactlyWhenAccountAgrees` | alembic/versions/0036_physical_metric_views.py:50-53 | A metric of a physical entity is counted if and only if it names that entity's account and business |
| `PhysicalViews.SiblingsShareTheKey` | alembic/versions/0036_physical_metric_views.py:54-62 | The subquery's siblings are exactly the entities of the same physical key |
| `DistinctRows.DistinctOnKeepsFirsts` | alembic/versions/0036_physical_metric_views.py:20-25 | Sorting and keeping the first row of each key leaves one row per key, none of whose rows comes before it |
| `DistinctRows.DistinctOnIgnoresScanOrder` | alembic/versions/0036_physical_metric_views.py:25 | Without ties the result does not depend on the order of the rows |
| `Workspaces.Backfill.Upgrade` | alembic/versions/0058_workspaces.py:38-60 | After the backfill every job and every draft is in exactly one workspace of its own business, keys do not collide, every workspace is used, briefs are those of the newest job or the draft with the latest draft's intent, and nothing else changed |
| `Workspaces.AdoptsEverything` | alembic/versions/0058_workspaces.py:38-52 | From what each statement did to the tables: all adopted, every workspace in use, every brief made from a job or draft |
| `Workspaces.AdoptsDraft` | alembic/versions/0058_workspaces.py:44-52 | A draft written by a job follows the job; any other gets its own workspace |
| `Workspaces.LaunchesAreOfJobs` | alembic/versions/0058_workspaces.py:38-43 | After the first two statements every job is in the workspace of its slug and every workspace has a job |
| `Workspaces.NotTaken` | alembic/versions/0058_workspaces.py:47-49 | The second insert meets no workspace of the same business and key, launch keys included |
| `Workspaces.CarryingKeepsAdoption` | alembic/versions/0058_workspaces.py:55-60 | Carrying intents over changes neither keys nor adoption |
| `Workspaces.CarriedIntentIsTheLatest` | alembic/versions/0058_workspaces.py:55-60 | What a workspace carries is the intent of a draft of its own that none of its drafts was changed after, nor at the same time with a smaller id |
| `Workspaces.LaunchTitleIsTheNewest` | alembic/versions/0058_workspaces.py:38-41 | A launch workspace is titled as one of its own jobs that none of them was created after |
| `Workspaces.KeyFamiliesAreApart` | alembic/versions/0058_workspaces.py:38-52 | launch: and draft: keys never meet and are injective |
| `Workspaces.Backfill.InsertLaunches` | alembic/versions/0058_workspaces.py:38-41 | One workspace per business and slug with a job, titled after a newest job |
| `Workspaces.Backfill.NewestOf` | alembic/versions/0058_workspaces.py:38-41 | A job of the slug such that none is newer |
| `Workspaces.Backfill.LinkJobs` | alembic/versions/0058_workspaces.py:42-43 | Every job is set to the workspace that matches it and is otherwise unchanged |
| `Workspaces.Backfill.LinkRuntimeDrafts` | alembic/versions/0058_workspaces.py:44-46 | Every draft a job wrote is set to the job's workspace, any other is unchanged |
| `Workspaces.Backfill.InsertDraftWorkspaces` | alembic/versions/0058_workspaces.py:47-49 | One workspace per draft without one, existing ones stay, and no insert meets a workspace of the same business and key |
| `Workspaces.Backfill.LinkDrafts` | alembic/versions/0058_workspaces.py:50-52 | Every draft without a workspace is set to its own |
| `Workspaces.Backfill.LatestOf` | alembic/versions/0058_workspaces.py:55-57 | The latest draft of a workspace, ties going to the smaller id |
| `Workspaces.Backfill.BriefWithIntent` | alembic/versions/0058_workspaces.py:55-60 | The brief with the latest draft's objective and notes, or as it was |
| `Workspaces.Backfill.CarryIntents` | alembic/versions/0058_workspaces.py:55-60 | Every workspace carries the intent of its latest draft and is otherwise unchanged |
| `EntityHierarchy.EveryPathEndsInACampaign` | alembic/versions/0003_ad_entities.py:99-160 | In every reachable state each entity reaches a campaign in exactly as many parent steps as its level is deep, within one platform, account and business, and no path returns |
| `EntityHierarchy.AncestorFacts` | alembic/versions/0003_ad_entities.py:99-160 | n steps up is n levels up, and beyond the campaign there is nothing |
| `EntityHierarchy.AlwaysLinked` | alembic/versions/0035_connection_identity.py:43-65 | In every reachable state each row hangs from one a level above in the same account and refers to its account |
| `EntityHierarchy.AlwaysDistinct` | alembic/versions/0035_connection_identity.py:25-34 | In every reachable state no two rows share a reference or an identity |
| `EntityHierarchy.AccountsAreTakenExactly` | alembic/versions/0035_connection_identity.py:25-34 | An account is added or changed exactly when its reference and its platform, connection and external id are its own and its entities keep pointing at it; it goes exactly when it has none |
| `EntityHierarchy.EntitiesAreTakenExactly` | alembic/versions/0035_connection_identity.py:35-57 | An entity is added or updated exactly when it is in its account's business, platform and connection, a campaign at the top or one level under another entity of the account, and its keys are its own, an update keeping all but parent and name; it goes exactly when nothing hangs from it |
| `EntityHierarchy.EntityRefsTellApart` | alembic/versions/0035_connection_identity.py:58-63 | Among entities with a connection, and among those without, equal references mean equal platform, level and external id, and with a connection equal business and connection |
| `EntityHierarchy.AccountRefsTellApart` | alembic/versions/0035_connection_identity.py:25-29 | The same of accounts |
| `EntityHierarchy.MovingACampaignBreaksThePath` | alembic/versions/0035_connection_identity.py:52-57 | Without the immutable identity any campaign with an ad set could be moved to another account, and the path would break |
| `EntityHierarchy.ConnectingFreezesEntities` | alembic/versions/0035_connection_identity.py:41-51 | An account without a connection may be given one over its entities, and then accepts no update of them |
| `EntityHierarchy.UpdatableExactlyWhenConnected` | alembic/versions/0035_connection_identity.py:43-57 | In every reachable state an update of an entity that keeps its identity is accepted exactly when its account still has its connection and the parent fits |
| `EntityHierarchy.EntityTables.InsertEntityRow` | alembic/versions/0035_connection_identity.py:43-65 | Both triggers, CHECK and keys decide exactly; the row gets its parent level and reference |
| `EntityHierarchy.EntityTables.UpdateEntityRow` | alembic/versions/0035_connection_identity.py:43-65 | Level, parent, account and identity are checked; the row changes exactly when all hold |
| `EntityHierarchy.EntityTables.CheckParent` | alembic/versions/0003_ad_entities.py:122-160 | The parent trigger decides whether the parent fits and reads its level |
| `EntityHierarchy.EntityTables.CheckScope` | alembic/versions/0035_connection_identity.py:46-51 | The account trigger decides whether the entity is in its account's scope |
| `SignedContext.ProposalIsAddedExactly` | alembic/versions/0008_proposals.py:74-101 | A proposal is added exactly when value, times and binding are as the CHECKs and the guard say and no other open one is of its entity and parameter |
| `SignedContext.ProposalIsUpdatedExactly` | alembic/versions/0037_execution_account_targets.py:132-147 | An update is taken exactly when the row may stand, its binding is the same, another value has another hash, and the state stays or is right before; or the proposal is reopened with another value, unscheduled and with none of its executions under way or holding money |
| `SignedContext.ApprovalIsTakenExactly` | alembic/versions/0045_package_step_auth_chain.py:43-72 | An approval is taken exactly when its columns agree with its kind, it carries its proposal's binding, it is not given twice for hash and kind, and for what is important or critical it is a person's or a step that leans on a person's approval of a package |
| `SignedContext.ExecutionIsTakenExactly` | alembic/versions/0009_executions.py:35-43 | An execution is written exactly when its proposal and its authorization exist, and goes exactly when nothing is reserved for it |
| `SignedContext.ReservationIsTakenExactly` | alembic/versions/0039_managed_signed_context.py:46-52 | A reservation is taken exactly when it is the execution's only one and carries the binding of its authorization |
| `SignedContext.OneOpenProposal` | alembic/versions/0008_proposals.py:96-101 | In every reachable state a parameter of an entity has one proposal at most that is pending, postponed, approved or scheduled |
| `SignedContext.ApprovalsCarryTheBinding` | alembic/versions/0039_managed_signed_context.py:38-45 | In every reachable state each approval carries its proposal's managed binding and every bound approval is a person's |
| `SignedContext.ReservationsBoundExactlyWhenLinksHold` | alembic/versions/0039_managed_signed_context.py:46-52 | Each reservation carries its execution's authorization's binding at every moment if and only if no execution with a reservation is moved to an authorization of another binding |
| `SignedContext.MovingBindingIsReachable` | alembic/versions/0039_managed_signed_context.py:46-52 | From empty tables: a bound execution with a reservation is led to an approval without a binding, and the reservation stays as it is |
| `SignedContext.ImportantApprovalsAreSigned` | alembic/versions/0045_package_step_auth_chain.py:43-72 | An approval accepted for a proposal then important or critical is for ever a person's or one link from a person's approval marked as of a package |
| `SignedContext.SignedExactlyWhenNotRaised` | alembic/versions/0045_package_step_auth_chain.py:48-52 | That every approval of what is now important has a person behind it holds at every moment if and only if nobody raises a classification over one without |
| `SignedContext.RaisingIsReachable` | alembic/versions/0045_package_step_auth_chain.py:48-52 | Such a history from empty tables: a rule approves, then a person calls the proposal critical |
| `SignedContext.LiveExactlyWhenUncut` | alembic/versions/0045_package_step_auth_chain.py:43-60 | At every moment each package step accepted for an important proposal leans on a person's approval of a package not revoked at that moment, if and only if none leans on one marked over a proposal or already revoked and no revocation is written over one leaned on |
| `SignedContext.LiveUptoStep` | alembic/versions/0045_package_step_auth_chain.py:43-60 | One statement keeps that exactly when it is none of those three |
| `SignedContext.MarkedStepIsReachable` | alembic/versions/0044_package_approval_envelope.py:67-76 | From empty tables, a step that leans on an approval of another proposal |
| `SignedContext.RevokedStepIsReachable` | alembic/versions/0045_package_step_auth_chain.py:53-60 | A step accepted on an approval revoked before |
| `SignedContext.RevokingLaterIsReachable` | alembic/versions/0008_proposals.py:165 | A revocation accepted over an approval that a step leans on |
| `SignedContext.ApprovalsAreForever` | alembic/versions/0008_proposals.py:231-249 | An approval once written stays as it is, through any statements |
| `SignedContext.ApprovedOncePerDiff` | alembic/versions/0008_proposals.py:195-203 | In every reachable state no proposal is approved twice for one diff by one kind of authority |
| `SignedContext.DiffHashIdentifiesValue` | alembic/versions/0037_execution_account_targets.py:147-154 | Over a proposal's whole history, revisions included, equal hashes stand for equal values if and only if no rotation brings an old hash back for another value |
| `SignedContext.RevisionsAreResolved` | alembic/versions/0037_execution_account_targets.py:135-143 | A proposal is reopened only with another value and hash, and only when no execution of it is under way or holds money |
| `SignedContext.TheMarkIsEnough` | alembic/versions/0045_package_step_auth_chain.py:53-60 | The chain reads a column of its own: a person's approval of any proposal, marked as of a package, carries a step of a critical proposal |
| `SignedContext.RevokingDoesNotCutTheChain` | alembic/versions/0045_package_step_auth_chain.py:53-60 | Writing a revocation never changes whether a step is accepted |
| `SignedContext.ContextTables.InsertApprovalRow` | alembic/versions/0045_package_step_auth_chain.py:43-72 | Kind, binding, CHECKs and keys decide exactly whether the approval is written |
| `SignedContext.ContextTables.GuardKind` | alembic/versions/0045_package_step_auth_chain.py:48-70 | The guard on what is important decides exactly as specified |
| `SignedContext.ContextTables.InsertProposalRow` | alembic/versions/0039_managed_signed_context.py:23-37 | A bound proposal needs its account; CHECKs and the live index decide the rest |
| `SignedContext.ContextTables.UpdateProposalRow` | alembic/versions/0037_execution_account_targets.py:147-171 | Hash rotation, revision or transition, fixed binding, CHECKs and index decide exactly |
| `SignedContext.ContextTables.GuardDiff` | alembic/versions/0037_execution_account_targets.py:147-171 | A revision is let through before the table of transitions, only when resolved |
| `SignedContext.ContextTables.DeleteProposalRow` | alembic/versions/0008_proposals.py:166-168 | A proposal goes exactly when nothing refers to it |
| `SignedContext.ContextTables.InsertReservationRow` | alembic/versions/0039_managed_signed_context.py:46-52 | A reservation is taken exactly with the expected binding |
| `SignedContext.ContextTables.UpdateReservationRow` | alembic/versions/0039_managed_signed_context.py:20-22 | It keeps its binding, which must still be the expected one |
| `HardCaps.FormattedAmountsReadBack` | panel/src/utils/hardCaps.ts:28-46 | Every amount in range reads back as itself from the form's own text |
| `HardCaps.ParsedAmounts` | panel/src/utils/hardCaps.ts:39-46 | Any numeral of 1 to 15 digits with up to two decimals after comma or point, blanks around it, reads as what it says, and nothing above the maximum is read |
| `HardCaps.OnlyNumeralsAreRead` | panel/src/utils/hardCaps.ts:39-46 | And nothing else is read: whatever is read is such a numeral between blanks, of at most the maximum |
| `HardCaps.ValidateCapsForm` | panel/src/utils/hardCaps.ts:83-122 | The form yields caps exactly when all three inputs are amounts within the envelope with daily at most monthly and at most the ceiling; otherwise it names each problem at its field |
| `HardCaps.EffectiveIsGreatest` | src/safent_ads/broker/domain/hard_caps_policy.py:115-217 | The caps in effect are the greatest that exceed neither panel, envelope nor file |
| `HardCaps.WritableExactlyWithCaps` | src/safent_ads/broker/domain/hard_caps_policy.py:115-196 | An account may write exactly when it has caps, from the file or from the panel under an envelope; the source is said as it is; and the floor is the file's, else the envelope's, never the panel's |
| `HardCaps.CutFieldsAreSaid` | src/safent_ads/broker/domain/hard_caps_policy.py:224-227 | The fields said to be cut are those in which what is in effect is below what was set, each once, in order |
| `HardCaps.SentExactlyWhenUncut` | panel/src/utils/hardCaps.ts:83-122 | The form sends three amounts, no daily one above the monthly one or the ceiling, if and only if they are in effect as typed where there is no file entry |
| `HardCaps.ShownCapsAreSentBack` | panel/src/utils/hardCaps.ts:28-46 | Caps shown in the form can be sent as they are exactly when they are in effect uncut |
| `HardCaps.NoSetRaisesUnannounced` | panel/src/utils/hardCaps.ts:130-138 | No set raises an amount in effect unannounced, whatever the file, the panel before and the envelopes; and when a set raises |
| `HardCaps.SetIsAnnouncedExactly` | panel/src/utils/hardCaps.ts:130-138 | Without a file entry and within the envelope a set is announced exactly when it raises |
| `HardCaps.NoWithdrawalRaisesUnannounced` | panel/src/utils/hardCaps.ts:142-144 | No withdrawal raises unannounced; resolving without the panel raises exactly where its clamped caps were below the file's |
| `HardCaps.LosingThePanelCanLoosen` | src/safent_ads/broker/domain/hard_caps_policy.py:5-14 | A concrete account whose daily cap grows fivefold when the panel's state is lost |
| `Csv.PrintedTablesReadBack` | panel/src/utils/csv.ts:2-10 | Reading a printed table gives back header and every cell if and only if there is a column and every column name is safe unquoted |
| `Csv.DifferentTablesPrintDifferently` | panel/src/utils/csv.ts:2-10 | With such columns, tables print alike exactly when their cells are alike |
| `Csv.EscapedReads` | panel/src/utils/csv.ts:3-6 | Any cell text reads back from its escaped form |
| `Csv.ReadsBackExactlyWhenSafe` | panel/src/utils/csv.ts:7 | An unescaped text reads back exactly when it has no comma or line feed and does not begin with a quote |

## Left out

- PostgreSQL concurrency: snapshots, lock levels, deferred validation and `SKIP LOCKED`. Every statement is atomic and statements are serial; the unique index on running steps therefore never decides anything the order does not.
- Updates of primary keys, and foreign keys into tables that are not modelled (businesses, offerings, rules, connections, spend ledger); they only reject more.
- Columns without a guard of their own: budgets, rationale, research, evidence, time stamps set by triggers, statuses and money of entities.
- Formats checked by regular expressions (ULIDs, UUIDs, hashes, currencies) and length limits other than those of publications and steps.
- SHA-256, Ed25519 and AES: digests are arbitrary functions, signatures are not modelled, and the limiter is keyed by the hashed key directly.
- Floating point: the limiter's tokens and clock are exact reals, minor amounts are exact integers; `formatMinorForInput` divides in floating point, exactly so for amounts up to the maximum.
- The clock of the limiter never goes back, as `time.monotonic` promises.
- React rendering and batching: a scope change with its effect is one step, and each response is handled in one step. `useFreshIdentification`, its dialog and its error texts are outside; an attempt is whatever it sends.
- Two live prototypes of one hook instance, and callbacks replaced between renders while a request is in flight; what an action captured when it was prepared is part of the model.
- What the platform, the executor's own checks, the entity registry and the checks before a step answer, and where a cycle breaks off: each cycle of the worker receives them as inputs. Guardrails, reservations, signatures and the broker are outside; of an execution the model keeps its key, its proposal and its status. Of signing a step it keeps the row that is written and the proposals and approvals that stand when it is, which each cycle receives as an input too.
- `PublicationWorkerInPlace.Worker.RunChokepoint`: a new step that the gates turn down is committed as over at the first commit already; the model has it held there, which no later cycle can tell apart, as its row does not know the proposal. A session rolled back inside the chokepoint counts as a cycle that breaks off there.
- An upload that is interrupted leaves no row; it is made again, and the image uploaded twice is not modelled.
- The payload of a step, its template hash and the holes filled in it; a step is its kind, references, dependencies, expected count and, of an upload, the checksum of what it uploads.
- Which platforms may mix ads with images and asset groups; the bounds hold without that rule.
- `PublicationProgress.GoodCyclesComplete`: assumes cycles in which nothing stands in the way; with rejected or unknown reports progress depends on the platform.
- Undo after publication, which pauses the campaign through another path and leaves these tables as they are.
- `executions` and `spend_ledger` targets (`validate_execution_target`, the view `ads_execution_targets`): a proposal's binding is checked against its account by an input of the statement, as the account tables stand at that moment.
- `Workspaces.Backfill.InsertLaunches`: two jobs of one slug created at the same instant may each give the title; the database picks either, and so does the model.
- JSON values are their texts; two spellings of one document count as different.
- The downgrades of all migrations, and purely additive migrations.
- The spend-cap evaluation, the chokepoint's gates, MCP dispatcher, OAuth use cases, HTTP plumbing, CSRF and origin checks, routes and labels.

# DevNepal: verified models of the platform's core services

Each group of files models one part of the platform and proves what it promises over every input and every run. A
specification module gives each service call as a function on the stored rows; where the code changes rows in place, a
class performs the same call with the same loops and is proved equal to it; the theorems are lemmas about the functions
and about runs of them.

| part | files |
|---|---|
| GitHub events, the event ledger, the sweep and repository access | GithubEvents, Ledger, SyncService, LedgerActivity, LedgerCredit, LedgerTracking, LedgerOrder, LedgerSweep, LedgerAccess, LedgerMeaning |
| App key reader and RS256 signature | Bytes, AppKey, AppKeyMeaning, Rs256, Rs256Decoding |
| Government project lifecycle and immutable versions | Lifecycle, ProjectService, LifecycleMaterial, LifecycleProofs |
| Contribution verification, scores, badges and corrections | Recognition, RecognitionDesk, Corrections, CorrectionRuns, CorrectionUndo, RevokedCreditExample, Scoring, ScoringPoints, RecognitionMeaning |
| Safe Markdown renderer | Html, HtmlReading, HtmlNesting, MarkdownSyntax, MarkdownPatterns, Markdown, MarkdownRenderer, MarkdownOutput, MarkdownReader, MarkdownReading, MarkdownConservation |
| Authentication rate limiter under interleaving | RateLimit, RateLimiter, RateLimitProofs, RateLimitReports, RateLimitDenials, RateLimitMeaning |
| Notification dispatcher | Notifications, Dispatcher, Dispatching, DispatchRuns, NotificationMeaning |
| Moderation enforcement and appeals | Moderation, ModerationProofs, ModerationMeaning |
| Contribution calendar | Calendar, CalendarMeaning |
| Deliverables field | Deliverables, DeliverablesMeaning |

`Common`, `Text` and `TextPatterns` hold the shared optional and result types and the string operations of the standard
library. The modules named `...Meaning` say what each call does on its inputs alone, without the functions it is built from.

Where the code does not do what its documentation says, the model follows the code, and a lemma says exactly when the
promise holds:

- `resume` does not ask for a paused project, so it can open an approved one without serving a version
  (`LifecycleProofs.ReviewedMaterialThroughout`, `ResumingApprovedBreaks`).
- A submission takes its version before the transition is refused (`LifecycleProofs.OnlyRefusedSubmissionDrifts`, `ServedIsApproved`).
- The recognition snapshot leaves out the contribution status, so an overturned appeal can make the score of a revoked
  contribution count again (`CorrectionUndo.StepCredit`, `RevokedCreditExample.OverturnAfterRevocation`).
- Resolving a correction without a pending appeal raises, but only after recording the outcome
  (`CorrectionUndo.OutcomeWithoutAppeal`).
- Reversed scores still count towards badge totals (`Scoring.InvalidatedScoresStillCount`).
- A ledger row without a parsed event takes its delivery id as event id, so a colliding delivery id blocks a credit
  (`LedgerCredit.UnverifiedDeliveryUsesOnlyItsId`, `CollidingDeliveryBlocksCredit`).
- The limiter lets one attempt per window through even for a limit of zero (`RateLimitProofs.OneWindow`), and can report
  a window's denial more than once: because a slow call stored a reset time that is too early, or because a refused call
  reports after the window is over. `RateLimitReports.AgainIff` says exactly from which states it can, `ReportedTwice`
  runs the first cause, and `RateLimitDenials.ReportedOnce` is the special case of calls that take no time.
- The cap of a score recomputation holds for each call, not for the window (`Scoring.RoundsScore`).
- A delivery refused for its signature or age uses up its delivery id, so a valid redelivery under the same id is not
  credited (`LedgerCredit.RefusalOutlastsRedelivery`).
- A drain that finds the contributions service but not its contribution type fails the pending rows of human events for
  good, so credit depends on the order of that drain and the delivery (`LedgerOrder.AllCreditedIff`, `DrainOrderMatters`).
- An event that the provider lists under another repository's name stops the sweep (`LedgerSweep.ForeignEventStalls`).
- `mandatory=True` counts when a row is queued but not when it is dispatched (`Dispatching.SuppressedIff`).
- Appeals of several decisions on one target restore it only when overturned in reverse order
  (`ModerationProofs.OverturnKeepsForce`, `FirstOverturnedFirst`).
- A deliverable address ending in a bar, or an entry with a line break, does not survive printing and reading
  (`Deliverables.RoundTrip`).

## Model

| member | source | states |
|---|---|---|
| GithubEvents.SourcesAgree | apps/github_sync/services.py:938-977 | a webhook payload and the Events API record of the same activity become the same credited event, or neither does: exactly when the activity is on the configured branch and the webhook parser accepts it |
| LedgerActivity.PendingIffEarned | apps/github_sync/webhooks.py:51-110 | a delivery adds a pending row exactly when it is verified, its activity earns credit (a pull request closed as merged, an issue closed as completed or without reason, a review submitted as approved, a release published, each with an id), its type is enabled, its branch the configured one, and delivery id and object id are new; the row is keyed by the object, and its kind, credited actor, bot mark and repository are those of the payload |
| LedgerActivity.RowSaysHowReceived | apps/github_sync/services.py:1015-1174 | whatever is delivered, at most one row is added, under the delivery's own id, rejected, failed or duplicate exactly for its signature and age, its missing parts, or its known object |
| LedgerActivity.RecordedIffEarned | apps/github_sync/services.py:926-977 | an Events API entry is recorded exactly when its type is enabled, it is of the swept repository and on the branch, names its actor, and its activity earns credit by the same rules |
| LedgerActivity.UnearnedNeverCredited | apps/github_sync/services.py:1015-1447 | over every run, an object of which no accepted delivery and no page reports a merge, a completion, an approval or a publication never gains a contribution |
| LedgerActivity.UnmergedPullNeverCredited | apps/github_sync/webhooks.py:77-80 | a pull request whose deliveries all say it is not merged never gains a contribution, over every run |
| SyncServices.SyncService.IngestWebhook | apps/github_sync/services.py:1015-1174 | the intake, branch by branch: known delivery ids answer with their row, a taken key is a conflict, an accepted access event is applied, and one row is added with the state the signature, window and body call for |
| SyncServices.SyncService.ApplyAccessEvent | apps/github_sync/services.py:1476-1544 | a well-formed installation or removal event does its scope of revocations or unsuspensions in place and anything else nothing |
| SyncServices.SyncService.RevokeAll | apps/github_sync/services.py:1547-1593 | the loop stops, unbinds and dates every connection in scope not yet revoked for the reason, leaves the others, and returns how many it changed |
| SyncServices.SyncService.UnsuspendAll | apps/github_sync/services.py:1596-1637 | the loop lifts exactly the suspension of the installation and leaves the connections stopped |
| SyncServices.SyncService.ProcessPending | apps/github_sync/services.py:1177-1309 | draining up to a limit settles the oldest pending rows in order, each as processed, failed or blocked, with totals |
| SyncServices.SyncService.ReconcileRepository | apps/github_sync/services.py:1371-1412 | one reconcile: a stopped connection is skipped, a failed fetch or write is rolled back and scheduled for retry, a page is persisted and the cursor moved, and syncing is never what is left behind |
| SyncServices.SyncService.PersistPage | apps/github_sync/services.py:1415-1447 | a page adds one pending row for each event whose keys are free, in order, and nothing for the others |
| SyncServices.SyncService.EnrollRepository | apps/github_sync/services.py:296-391 | enrolling restarts a stopped connection, refreshes a running one and creates a missing one |
| SyncServices.SyncService.BindRepository | apps/github_sync/services.py:247-282 | binding goes through exactly for a running connection that is free or bound to this project already, and then changes nothing but its project; it reports a new binding exactly when there was none, and a refusal, with the first guard that fails, changes nothing |
| Ledger.BindingHolds | apps/github_sync/services.py:258-282 | after a binding the same call succeeds again without change, and binding another project is refused |
| LedgerAccess.BindingLasts | apps/github_sync/services.py:247-391 | over every run of webhooks, sweeps, drains, enrolments, bindings and disconnections a bound repository stays with its project, unless an access change is reported |
| SyncServices.SyncService.DisconnectUser | apps/github_sync/services.py:1312-1352 | disconnecting stops exactly the connections of the user that still run |
| LedgerCredit.AtMostOnceCredit | apps/github_sync/services.py:1015-1309 | over every run: no two rows share a delivery id or an event id, a settled row never changes and no row returns to pending, at most one contribution exists per provider event, and every processed row of a human has exactly one |
| LedgerCredit.StepKeepsLedger | apps/github_sync/services.py:1015-1447 | every call, from any source, keeps that ledger invariant |
| LedgerCredit.DrainKeepsLedger | apps/github_sync/services.py:1177-1309 | processed, failed and blocked together are the rows the drain looked at |
| LedgerCredit.OneContributionPerCredit | apps/github_sync/services.py:1015-1309 | from an empty ledger on, there are in every state exactly as many contributions as credited rows |
| LedgerCredit.UnverifiedDeliveryUsesOnlyItsId | apps/github_sync/services.py:1027-1150 | a delivery that is refused or ignored, for its body, its event type or its branch, uses up an event id exactly when its own delivery id equals it |
| LedgerCredit.CreditableAdmittedIff | apps/github_sync/services.py:1027-1174 | a delivery of a configured verified event becomes a pending row under its event id exactly when its delivery id and that event id are both new, a duplicate row exactly when only the event is known and the delivery id is free as a key, and otherwise nothing |
| LedgerCredit.FirstDeliveryDecides | apps/github_sync/services.py:1027-1029 | once an id was delivered, no later delivery under it changes anything, whatever ran in between |
| LedgerCredit.RefusalOutlastsRedelivery | apps/github_sync/services.py:1027-1084 | a delivery refused for its signature or age keeps its rejected row over every run, so a valid redelivery under the same id is never credited |
| LedgerCredit.CollidingDeliveryBlocksCredit | apps/github_sync/services.py:1027-1174 | the concrete collision: an unsigned delivery whose id is an event id makes the genuine event a duplicate, so the two namespaces must be disjoint for the guarantee |
| LedgerTracking.CreditIsWhatArrived | apps/github_sync/services.py:1027-1447 | in every state of every run over one connection that stays active and bound, with any drains, refusals and repetitions and anything happening to other repositories: the credited events are exactly the human events that pages and first deliveries of an id brought, less those a drain took while the contribution type was missing and those still pending |
| LedgerOrder.AllCreditedIff | apps/github_sync/services.py:1177-1309 | once no human event is pending, every one that arrived is credited exactly when no drain that found the contributions service but not its contribution type took a pending human row; a drain that finds no service does no harm |
| LedgerOrder.FinalDrainSettles | apps/github_sync/services.py:1177-1309 | whatever ran before, a drain that finds the service and has room for all rows leaves no human event pending |
| LedgerOrder.OrderIndependence | apps/github_sync/services.py:1027-1447 | two runs, each with its own deliveries, refusals and drains, that leave no human event pending credit the same events exactly when they brought the same human events less what each lost; if no drain of either took one while the type was missing, exactly when they brought the same, by whichever source, in whichever order and however often |
| LedgerOrder.DrainOrderMatters | apps/github_sync/services.py:1177-1295 | the concrete pair of runs: a drain without the contribution type after the delivery fails the row for good, the same drain before it does not, and a good drain at the end does not bring the first back |
| LedgerSweep.Fetch | apps/github_sync/services.py:876-908 | the fetch loop normalises one page of at most a hundred events, stops at the first malformed one, and moves to the next page only when the page was full |
| LedgerSweep.SweepCompletes | apps/github_sync/services.py:876-908 | from the start cursor, floor(N/100)+1 successful reconciles among any number of failed ones and of any other calls put every normalisable event of the provider in the ledger and bring the cursor back to the start |
| LedgerSweep.UpAdvances | apps/github_sync/services.py:1371-1447 | each successful reconcile completes one page and nothing is skipped between pages |
| LedgerSweep.DownKeepsPlace | apps/github_sync/services.py:1450-1473 | a failed reconcile moves neither ledger nor cursor nor any other connection |
| LedgerSweep.FurtherSweepAddsNothing | apps/github_sync/services.py:1371-1447 | any further sweeping over events that are all recorded leaves the ledger as it is |
| LedgerSweep.PageReadIff | apps/github_sync/services.py:876-977 | a page is read exactly when it lists no event of an enabled type under another repository's name |
| LedgerSweep.ForeignEventStalls | apps/github_sync/services.py:876-1473 | a page that lists one stops the sweep at its place: no attempt moves the cursor or adds a row |
| LedgerAccess.AccessOkAlways | apps/github_sync/services.py:247-391 | in every reachable state a connection is stopped exactly when it has a deactivation date, a revocation reason means stopped, unbound and not scheduled, and no connection is syncing |
| LedgerAccess.OnlyEnrolmentRestarts | apps/github_sync/services.py:1332-1689 | without an enrolment no run gets a stopped connection going again |
| LedgerAccess.EnrolmentRestarts | apps/github_sync/services.py:313-391 | an enrolment of a stopped repository clears its stop, failures and schedule, keeps its cursor, and keeps its project only when it was not revoked |
| LedgerAccess.AccessEventIdempotent | apps/github_sync/services.py:1476-1689 | the same access event a second time changes nothing |
| LedgerAccess.RepeatedRevocationAffectsNone | apps/github_sync/services.py:1547-1593 | a repeated revocation reports that it affected no connection |
| LedgerAccess.StoppedEarnsNothing | apps/github_sync/services.py:1177-1309 | a row of a stopped repository is never credited, whatever runs, until an enrolment |
| LedgerAccess.RetryDelayGrows | apps/github_sync/services.py:1450-1473 | the retry delay never falls as failures mount and stays between the base and the maximum |
| LedgerAccess.FailuresAccumulate | apps/github_sync/services.py:1450-1473 | n failed reconciles in a row add exactly n failures, leave the connection degraded and schedule the next attempt by the last of them |
| LedgerMeaning.AccessMeans | apps/github_sync/services.py:1476-1637 | an access event rewrites exactly the connections of its installation and repositories: unbound, stopped, dated and given the reason, or, when unsuspended, left stopped with their failures cleared |
| LedgerMeaning.AffectedAreChanged | apps/github_sync/services.py:1547-1593 | the number a revocation reports is the number of connections it changes |
| LedgerMeaning.DeliveryChangesAccess | apps/github_sync/services.py:1015-1174 | only a verified access delivery of an id not used as any key changes a connection |
| LedgerMeaning.AnswerMeans | apps/github_sync/services.py:1015-1174 | what the sender is told is what happened: the earlier row, a refusal, the row now recorded, or a conflict of which nothing is kept |
| LedgerMeaning.SettlementMeans | apps/github_sync/services.py:1209-1295 | a human event is credited, blocked or failed by whether the first connection of its repository runs and is bound, the service is there, and its record exists or can be made |
| LedgerMeaning.VerdictRecorded | apps/github_sync/services.py:1177-1309 | a verdict changes one row, its state and its attempts, and a blocked one nothing |
| LedgerMeaning.OldestTaken | apps/github_sync/services.py:1177-1209 | no pending row before one that the worker takes is left out |
| LedgerMeaning.PageMeans | apps/github_sync/services.py:1415-1447 | a page is recorded exactly when every event is of the repository and no new one has a delivery id in use; the rows added are then its new events, in order, pending |
| LedgerMeaning.SweepMeans | apps/github_sync/services.py:1371-1473 | a sweep of a stopped connection does nothing, a failed one only counts and schedules, and any other moves the cursor, clears the failures and leaves the connection idle |
| LedgerMeaning.DelayDoubles | apps/github_sync/services.py:1450-1473 | the first delay is the base, each later one twice the one before up to the maximum, and from the thirty-first failure on it stays |
| LedgerMeaning.FetchMeans | apps/github_sync/services.py:876-908 | which cursors and bindings cannot be fetched, and that the next cursor is the next page exactly when this one was full |
| LedgerMeaning.EnrolmentMeans | apps/github_sync/services.py:296-391 | what enrolling leaves of each column, for a new, a stopped and a running repository |
| LedgerMeaning.RefusalMeans | apps/github_sync/services.py:247-282 | why a binding is refused, in the order of the guards |
| LedgerMeaning.DisconnectionMeans | apps/github_sync/services.py:1312-1352 | what disconnecting an account leaves of each column of each connection |
| AppKey.DerRead | apps/github_sync/app_client.py:154-172 | on any bytes the reader fails or returns an offset strictly further on and inside the data, with the element's exact octets |
| AppKey.ReadPkcs8 | apps/github_sync/app_client.py:175-184 | the loop over the PKCS#8 elements terminates and finds the first OCTET STRING of the recursive description |
| AppKey.ReadPkcs1 | apps/github_sync/app_client.py:187-203 | the loop collects the integers of the body and yields the key of the first four, or the same error |
| AppKey.BareKeyRoundTrip | apps/github_sync/app_client.py:154-203 | the DER encoding (section 8.1.3 of ITU-T X.690, appendix A.1.2 of RFC 8017) of any key, with anything after it, reads back as exactly n, e and d when the version and primitives are acceptable, and is refused otherwise |
| AppKey.WrapperReadsBack | apps/github_sync/app_client.py:175-184 | the PKCS#8 wrapper of section 5 of RFC 5208 gives back the key octets it was built around |
| AppKey.WrappedKeyRoundTrip | apps/github_sync/app_client.py:133-203 | the same round trip through the wrapper |
| AppKeyMeaning.ElementFound | apps/github_sync/app_client.py:154-172 | an element is read at an offset exactly when one stands there: a tag, a short or long length, and its octets inside the data |
| AppKeyMeaning.WrapperMeans | apps/github_sync/app_client.py:175-184 | a wrapper yields some octets exactly when those of the first OCTET STRING in its outer sequence are they |
| AppKeyMeaning.KeyMeans | apps/github_sync/app_client.py:187-203 | a key is read from any octets exactly when the outer sequence starts with four integers, the last three n, e and d, that the primitives accept |
| AppKeyMeaning.HeaderDecides | apps/github_sync/app_client.py:133-151 | the header decides which of the two readings applies, and anything else is refused |
| Rs256.Sign | apps/github_sync/app_client.py:206-214 | signing goes through exactly when n is at least 256 to the 61st; the answer has exactly the octets of the modulus, its value is below n, and for a key pair that undoes itself the public key turns it into octets that an independent decoder of section 9.2 of RFC 8017 (padding of 0xff, separator, the SHA-256 algorithm identifier, OCTET STRING) reads as exactly the digest |
| Rs256.KeySizeExactlyDecides | apps/github_sync/app_client.py:206-214 | a key is large enough exactly when n is at least 256 to the 61st |
| Rs256.EncodedBelowModulus | apps/github_sync/app_client.py:206-214 | the encoded message of section 9.2 of RFC 8017 has exactly k octets and is numerically below n for every accepted key |
| Rs256.EncodedDecodes | apps/github_sync/app_client.py:209-212 | the encoded message, whatever the key size, decodes to exactly the digest |
| Rs256.SignatureDecodes | apps/github_sync/app_client.py:206-214 | the power of the signature decodes to exactly the digest whenever the key pair undoes itself on the encoded message |
| Rs256.SignatureVerifiesIff | apps/github_sync/app_client.py:206-214 | the signature is below n, and raised to e it is the encoded message exactly when the key inverts itself on that message; the octets are recovered from the number |
| ProjectServices.ProjectRow.SubmitForReview | apps/projects/services.py:616-638 | submission takes a version before its transition can still fail, and that version stays |
| ProjectServices.ProjectRow.PerformTransition | apps/projects/services.py:386-421 | a transition outside the table changes nothing; one inside it sets the status, the archive date and the audit row together |
| ProjectServices.ProjectRow.PublishApproved | apps/projects/services.py:949-999 | publishing serves the latest version and needs approval, readiness and a date that is due |
| ProjectServices.ProjectRow.PublishWhenDue | apps/projects/services.py:1094-1127 | the scheduled publication serves the latest version under the same conditions |
| ProjectServices.ProjectRow.PublishDirectly | apps/projects/services.py:1002-1046 | the direct publication creates and serves the version of the fields it publishes |
| ProjectServices.ProjectRow.ApplyEdit | apps/projects/services.py:1556-1599 | the loop applies the changes and a material one sends a reviewed or open project back to review with a new version |
| ProjectServices.ProjectRow.RestoreProject | apps/projects/services.py:1293-1333 | restoring without a target goes back to the status of the newest archiving audit row |
| LifecycleProofs.MaterialDifferenceIsFlagged | apps/projects/services.py:1556-1599 | whatever the order and number of changes, the edit loop flags an edit whenever a material field ends up different |
| LifecycleMaterial.EditSetsFields | apps/projects/services.py:1556-1599 | an edit is taken exactly in the editable states from an authorised caller who names no read-only field, sets every field to its last value and leaves the others |
| LifecycleMaterial.EditReviewed | apps/projects/services.py:1566-1597 | an edit of an open or paused project goes to review with a new version of the edited fields exactly when it touches the licence, repository, classification, description, problem statement, sign-off, security contact or channel, and otherwise leaves status, versions and audit |
| LifecycleMaterial.DifferenceTouches | apps/projects/services.py:130-140 | whenever one of these eight fields ends up different, the edit touched one |
| LifecycleMaterial.PublicFieldsWereReviewed | apps/projects/services.py:130-140 | from creation on, unless an approved project is resumed, a public project shows in each of the eight fields what its served version holds, and one under review what its latest version holds |
| LifecycleMaterial.CallOutcome | apps/projects/services.py:386-1599 | for each call, exactly when it goes through, where it leads, and that a refused one leaves status, served version, reviews and audit |
| LifecycleMaterial.MoveRecorded | apps/projects/services.py:386-421 | for each call, what it leaves on record: the audit row, the review and the version it names |
| LifecycleProofs.StepKeepsLive | apps/projects/services.py:386-421 | every call except resuming an approved project keeps the live row equal to reviewed material: the latest version while in review or approved, the current version while open, paused or closed |
| LifecycleProofs.ReviewedMaterialThroughout | apps/projects/services.py:1556-1599 | over every run that invariant holds in every state exactly when no call resumes a project that is approved but not open |
| LifecycleProofs.ResumingApprovedBreaks | apps/projects/services.py:1136-1145 | resuming an approved project opens it without serving a version, and so breaks the invariant |
| LifecycleProofs.OpeningServesApproved | apps/projects/services.py:949-1127 | opening an approved project serves its latest version, whose material is that of the version its approval named, exactly when the opening call is not resume |
| LifecycleProofs.ServedIsApproved | apps/projects/services.py:616-1127 | whatever is called between approval and publication, the version served is the very version approved exactly when no complete submission was refused in between, and carries its material anyway |
| LifecycleProofs.MaterialRuleFromDraft | apps/projects/services.py:1556-1599 | the same equivalence for every project from its creation on |
| LifecycleProofs.ApprovalNamesLatest | apps/projects/services.py:798-836 | an approval names the latest version, which the row then equals |
| LifecycleProofs.OnlyRefusedSubmissionDrifts | apps/projects/services.py:616-638 | while approved, the only call that adds a version without a new review is a submission that is then refused |
| LifecycleProofs.VersionsImmutable | apps/projects/services.py:352-360 | over every run recorded versions are kept unchanged and only added to |
| LifecycleProofs.ArchiveRecordStands | apps/projects/services.py:386-421 | while a project stays archived nothing changes its archiving record, its served version or its material fields |
| LifecycleProofs.ArchiveRestoreReturns | apps/projects/services.py:1284-1333 | archiving from any status that allows it, any calls while archived, and a default restore succeed and return exactly to that status, served version and material |
| LifecycleProofs.CyclesReturn | apps/projects/services.py:1284-1333 | any number of such cycles, each with its own calls while archived, end in the status, served version and material they began with |
| RecognitionDesks.RecognitionDesk.EvaluateAccepted | apps/recognition/services.py:170-222 | the evaluation in place: score once, total, and one pass over the badge rules, or no change at all when it raises |
| RecognitionDesks.RecognitionDesk.ReverseAccepted | apps/recognition/services.py:226-243 | the loop reverses the score and revokes exactly the active awards that cite the contribution |
| RecognitionDesks.RecognitionDesk.RecomputeScores | apps/recognition/services.py:247-278 | the scoring loop with its running counts per project and member |
| ScoringPoints.EvaluationMeans | apps/recognition/services.py:170-222 | an unscored accepted record gets the points its policy sets for its tier, or its default; the member's total rises by exactly these and no other total does; the member then holds every badge whose minimum is reached, and new awards are only such |
| ScoringPoints.EvaluationDeclines | apps/recognition/services.py:170-184 | nothing is scored without an accepted record, a contributor and a policy, or a second time, and a policy nobody approved is refused |
| ScoringPoints.RecomputationMeans | apps/recognition/services.py:247-278 | a record of the queue is newly scored exactly when it is accepted, has a contributor and no score, and fewer than the cap of its project and member waited before it; it gets the points of its tier and nothing else changes |
| RecognitionDesks.RecognitionDesk.VerifyRecord | apps/contributions/services.py:331-427 | verification with its guards in order, undone when scoring raises |
| RecognitionDesks.RecognitionDesk.Revoke | apps/contributions/services.py:430-470 | revocation of an accepted record together with its recognition |
| RecognitionDesks.RecognitionDesk.PlaceOnHold | apps/contributions/services.py:473-536 | only unscored, free records can be held, from the status they have |
| RecognitionDesks.RecognitionDesk.ReleaseHold | apps/contributions/services.py:539-578 | only an active hold from an unscored status can be released |
| RecognitionDesks.RecognitionDesk.RespondToHold | apps/contributions/services.py:581-637 | the contributor answers an active hold once |
| RecognitionDesks.RecognitionDesk.ApplyState | apps/recognition/services.py:580-617 | the mutation loops of each kind of correction, or no change when it raises |
| RecognitionDesks.RecognitionDesk.ApplyCorrection | apps/recognition/services.py:339-406 | a correction snapshots, changes and snapshots again the records it selected, ordered by key |
| RecognitionDesks.RecognitionDesk.RestoreState | apps/recognition/services.py:620-656 | the restoring loops over scores and awards, rolled back when an award cannot go back |
| RecognitionDesks.RecognitionDesk.ResolveAppeal | apps/recognition/services.py:455-524 | resolving compares the snapshot, restores or refuses, and records the outcome |
| RecognitionMeaning.VerifyMeans | apps/contributions/services.py:331-427 | which decisions are taken, from whom and of which records, and what each leaves |
| RecognitionMeaning.ReverseMeans | apps/recognition/services.py:226-243 | what a reversal leaves of the score and of each award |
| RecognitionMeaning.RevokeMeans | apps/contributions/services.py:430-470 | which revocations go through, and what each leaves |
| RecognitionMeaning.HoldMeans | apps/contributions/services.py:473-536 | which records can be held and what is noted |
| RecognitionMeaning.ReleaseMeans | apps/contributions/services.py:539-578 | which holds can be released and what they return to |
| RecognitionMeaning.RespondMeans | apps/contributions/services.py:581-637 | who can answer a hold, and when |
| RecognitionMeaning.SnapshotMeans | apps/recognition/services.py:688-724 | two snapshots are equal exactly when the covered records agree on their holds, scores and citing awards, column by column |
| RecognitionMeaning.SelectionMeans | apps/recognition/services.py:527-577 | which selections a correction accepts |
| RecognitionMeaning.ApplyMeans | apps/recognition/services.py:339-406 | exactly when a correction goes through, and the correction it records |
| RecognitionMeaning.AppealMeans | apps/recognition/services.py:409-452 | which corrections can be appealed |
| RecognitionMeaning.UpholdMeans | apps/recognition/services.py:455-524 | which appeals can be upheld, and that nothing but the outcome changes |
| Corrections.ChangeLessens | apps/recognition/services.py:580-617 | a correction other than a release touches only scores and awards of what it covers and grants nothing |
| Corrections.ChangeMeans | apps/recognition/services.py:580-617 | invalidating leaves every covered score reversed and no covered award active, consolidating keeps the first score at the corrected points, adjusting only sets the points |
| Corrections.PutBackUndoes | apps/recognition/services.py:620-656 | putting an untouched correction back fails exactly when an award it took away is active again for other work; otherwise the snapshot is the earlier one and everything else is as it was |
| CorrectionRuns.RunKeeps | apps/contributions/services.py:348-578 | over every run a revoked contribution stays revoked, a held record keeps the status it was held from, and no two active awards are for the same badge and member |
| CorrectionUndo.OverturnUndoes | apps/recognition/services.py:455-524 | for every run between applying and overturning: the overturn goes through exactly when nothing covered changed and no badge was granted again, then restores exactly the snapshot from before the correction, and otherwise changes nothing |
| CorrectionUndo.OverturnHoldsAgain | apps/recognition/services.py:620-632 | overturning a release holds the records again, and that is the earlier state exactly when no status changed in between |
| CorrectionUndo.OutcomeWithoutAppeal | apps/recognition/services.py:486-515 | the call raises for a missing appeal exactly when none is pending, and even then records the outcome and nothing else |
| CorrectionUndo.StepCredit | apps/recognition/services.py:226-656 | a call leaves revoked contributions without an unreversed score or active award exactly when it is neither a badge given by hand for one nor an overturned appeal that covers one |
| CorrectionUndo.RevokedCreditThroughout | apps/recognition/services.py:226-656 | over every run revoked contributions carry no credit in any state exactly when no such call is made |
| RevokedCreditExample.OverturnAfterRevocation | apps/recognition/services.py:695-702 | the concrete run: invalidated, appealed, revoked, overturned, and the revoked contribution's score counts again because the snapshot leaves the status out |
| Scoring.RecomputationCap | apps/recognition/services.py:261-278 | a recomputation scores at most the cap per project and member, and leaves a scorable record unscored only when its cap is used up |
| Scoring.RoundsScore | apps/recognition/services.py:247-278 | the counts restart at every call: n recomputations of one window score exactly the lesser of n times the cap and the waiting records of a project and member |
| Scoring.InvalidatedScoresStillCount | apps/recognition/services.py:201-208 | reversing scores never lowers the total later badges are judged by |
| CorrectionRuns.AwardsAfterUnique | apps/recognition/services.py:209-222 | every badge whose minimum is reached ends up held, new awards are only for such badges and cite the contribution, and none is held twice |
| MarkdownRenderer.RenderMarkdown | apps/blogs/markdown.py:54-122 | the line loop with its nested loops prints exactly the specified document, or returns the first error in source order; and the answer conserves the source: its lines divide without gaps into blank lines, maximal runs of text lines, headings, lists, tables and fences, the answer is refused for the first piece with an unsafe address, an empty alternative, a bad language or a missing end, and otherwise an independent reader sees in it every piece, in order, with its texts stripped, joined and taken apart at their leftmost tokens |
| MarkdownConservation.RenderingConserves | apps/blogs/markdown.py:54-122 | that conservation for every source, stated on the lines alone: the patterns of the constructs, not the functions that scan for them |
| MarkdownConservation.DivisionUnique | apps/blogs/markdown.py:54-122 | the lines of a source divide into such pieces in one way only, so what the output must show is settled by the source |
| MarkdownConservation.DocumentErrorIs | apps/blogs/markdown.py:16-41 | the error is that of the first piece that is not sound, and what it complains about stands in that piece |
| MarkdownConservation.LeftmostUnique | apps/blogs/markdown.py:28-47 | a text is taken apart at its leftmost tokens in one way only |
| MarkdownReading.DocumentSeen | apps/blogs/markdown.py:54-122 | the independent reader of the printed events sees the blocks with their prose, cells and lines |
| MarkdownRenderer.RenderInline | apps/blogs/markdown.py:24-47 | the token loop prints exactly the plain texts and leftmost tokens of the text |
| MarkdownRenderer.RenderFence | apps/blogs/markdown.py:69-84 | a fence takes its lines up to the next fence, refuses a bad language or a missing end, and prints them escaped |
| MarkdownRenderer.RenderTable | apps/blogs/markdown.py:85-99 | a table takes its header, divider and rows and prints every cell |
| MarkdownRenderer.RenderHeading | apps/blogs/markdown.py:100-103 | a heading prints its level and stripped text |
| MarkdownRenderer.RenderList | apps/blogs/markdown.py:104-114 | a list takes the consecutive items and prints each as it is reached |
| MarkdownSyntax.SpansWritten | apps/blogs/markdown.py:24-47 | the inline pieces written out again are the whole text: nothing of the source is lost or doubled |
| MarkdownSyntax.SpansLeftmost | apps/blogs/markdown.py:28-47 | tokens are taken leftmost and no plain stretch holds the start of one |
| MarkdownSyntax.HeadingPattern | apps/blogs/markdown.py:100-103 | the scanned heading test holds exactly when the pattern has a match, and every match gives the same text |
| MarkdownSyntax.ItemPattern | apps/blogs/markdown.py:104-114 | the scanned item test holds exactly when the pattern has a match, and every match gives the same text |
| MarkdownPatterns.TokenPattern | apps/blogs/markdown.py:7 | a token is found at a place exactly when the source of one stands there, and at most one can |
| MarkdownPatterns.DividerPattern | apps/blogs/markdown.py:8 | the scanned divider test holds exactly when the line is two or more ruled cells between single bars, with or without a bar at each end |
| MarkdownPatterns.CellsPattern | apps/blogs/markdown.py:50-51 | the cells of a line are the stripped texts between single bars of what is left without whitespace and bars at its ends |
| MarkdownPatterns.CellsUnique | apps/blogs/markdown.py:50-51 | no other cells fit the line |
| MarkdownOutput.RenderedIsWellFormed | apps/blogs/markdown.py:54-122 | every rendered document uses only the fixed tags where they may stand, balanced and closed in order, with checked addresses, nonblank alternatives and fixed attributes |
| MarkdownOutput.OutputReadsBack | apps/blogs/markdown.py:24-122 | an independent HTML reader recovers exactly the document from the output: text of the document is never taken for markup and none of it is lost; RenderingConserves ties the document to the source |
| HtmlReading.PrintReadsBack | apps/blogs/markdown.py:32-47 | reading the printing of any events gives back these events |
| HtmlReading.UnescapeEscape | apps/blogs/markdown.py:31-47 | unescaping escaped text gives the text |
| HtmlReading.EscapedHoldsNoMarkup | apps/blogs/markdown.py:31-47 | escaped text holds no raw angle bracket or quote |
| MarkdownOutput.FenceKeepsLines | apps/blogs/markdown.py:69-84 | unescaping a printed code block and splitting it at line breaks returns its source lines, the empty block alone reading as one empty line |
| RateLimitProofs.OneWindow | apps/accounts/rate_limits.py:118-139 | whatever the interleaving, at most max(1, limit) counted attempts of a subject pass in one window |
| RateLimitProofs.AnyStretch | apps/accounts/rate_limits.py:81-139 | in any stretch as long as a window at most twice max(1, limit) attempts of a subject pass |
| RateLimitProofs.AnswerMeans | apps/accounts/rate_limits.py:64-155 | an allowed attempt was counted within the limit for both of its subjects, and a refused one waits between one second and the window |
| RateLimit.MergedMeans | apps/accounts/rate_limits.py:64-95 | the merged answer allows exactly when both subjects do, and else carries the longest wait and any first denial |
| RateLimitMeaning.NumberDecides | apps/accounts/rate_limits.py:118-139 | over every run the attempts of a subject in a window are numbered from one without gaps, and a call is allowed exactly when the numbers of both of its subjects are one or within the limit: no one is refused too early |
| RateLimitMeaning.CheckDecides | apps/accounts/rate_limits.py:98-115 | a check lets through exactly where no count is kept or it is below the limit, and counts nothing |
| RateLimitMeaning.ReportDecides | apps/accounts/rate_limits.py:98-139 | a refusal is a first denial exactly when none of its subject is remembered, and is then remembered for the wait |
| RateLimitMeaning.WaitIsLeast | apps/accounts/rate_limits.py:142-155 | the wait is the least whole number of seconds to the reset, at least one and at most the window |
| RateLimitMeaning.OutageDecides | apps/accounts/rate_limits.py:64-139 | a cache that fails denies the subject for a whole window and counts and reports nothing |
| RateLimitReports.ReportsAreSpaced | apps/accounts/rate_limits.py:98-155 | over every run, whatever the interleaving and however slow the calls, a subject is reported again only when its earlier report is no longer remembered |
| RateLimitReports.TimelyReportsAreSingle | apps/accounts/rate_limits.py:98-155 | a window is reported twice only if its first report was remembered for too short a time or its second came after the window was over; if every report is made within its window and remembered to its end, each window is reported at most once |
| RateLimitReports.AgainIff | apps/accounts/rate_limits.py:98-155 | from every reachable state with a report, some continuation reports its window again exactly when the window is still open or a refused call of it is underway; with calls that report within their window, exactly when it is open and the latest report is forgotten before its end |
| RateLimitDenials.SlownessReportsAgain | apps/accounts/rate_limits.py:98-155 | even after a run in which calls took no time, an open window with a report can be reported again, but only by a call that reports after the window is over |
| RateLimitDenials.ReportedTwice | apps/accounts/rate_limits.py:118-155 | the concrete run in which a slow call stores an early reset time and one window sees two first denials within it |
| RateLimiter.Limiter.Decide | apps/accounts/rate_limits.py:64-95 | both subjects are consumed or checked in order and their decisions merged |
| RateLimiter.Limiter.ConsumeSubject | apps/accounts/rate_limits.py:118-139 | the cache operations of one consumption in place |
| RateLimiter.Limiter.CheckSubject | apps/accounts/rate_limits.py:98-115 | the cache operations of one check in place |
| RateLimiter.SubjectAlone | apps/accounts/rate_limits.py:98-139 | the interleaved operations, left undisturbed, have the effect and answer of the code read in one go |
| Dispatchers.Dispatcher.SendPending | apps/notifications/services.py:371-406 | the grouped loops over the sorted queue, in place, with their totals |
| Dispatchers.Dispatcher.SendGroup | apps/notifications/services.py:383-405 | one recipient's rows: opted-out ones suppressed, the others sent singly or as one digest |
| Dispatchers.Dispatcher.DeliverRows | apps/notifications/services.py:344-368 | one handover marks all its rows sent or failed |
| Dispatchers.Dispatcher.Mark | apps/notifications/services.py:240-253 | a failed attempt is counted up to the budget with its error class |
| Dispatchers.Dispatcher.Record | apps/notifications/services.py:148-203 | an event adds its in-app and email rows together or, when a key is taken, neither |
| Dispatching.QueueIs | apps/notifications/services.py:300-312 | the queue holds every candidate exactly once, by recipient and age |
| Dispatching.GroupIsWhole | apps/notifications/services.py:380-383 | grouping neighbours with one recipient leaves no row of that recipient for a later group |
| Dispatching.RunEffect | apps/notifications/services.py:371-406 | in one run every candidate is suppressed or handed over exactly once, and every other row, the in-app ones among them, is untouched |
| Dispatching.SuppressedIff | apps/notifications/services.py:315-321 | a candidate ends suppressed exactly when its kind is switched off at dispatch, so a mandatory kind never is, but a row queued as mandatory of another kind can be |
| DispatchRuns.RunAccounts | apps/notifications/services.py:371-406 | sent, failed and suppressed add up to the candidates, and each total counts the rows that ended so |
| DispatchRuns.AtMostTwice | apps/notifications/services.py:240-406 | over every run a row is handed to the mailer at most twice and taken at most once, exactly when it is sent, and every email holds rows of its own recipient only |
| DispatchRuns.TwoRunsSuffice | apps/notifications/services.py:300-406 | two runs with no new notification between them leave no candidate, whatever the mailer and the switches do |
| NotificationMeaning.SwitchesAre | apps/notifications/services.py:315-321 | which switch of a member decides each kind, and what holds before any is set |
| NotificationMeaning.NotifyMeans | apps/notifications/services.py:148-203 | which rows an event leaves, for each switch, mandatory kind and taken key |
| NotificationMeaning.QueueHolds | apps/notifications/services.py:300-312 | a row is a candidate exactly when it is an email that waits, or failed with an attempt left |
| NotificationMeaning.DeliverMeans | apps/notifications/services.py:335-368 | what a handover leaves of each row, sent or failed |
| NotificationMeaning.RunMails | apps/notifications/services.py:371-406 | every email of a run is for waiting rows of its recipient whose switch is on: one row, or for a member with a digest all of them |
| Moderation.ModerationDesk.RecordDecision | apps/moderation/services.py:361-420 | a decision enforces, records what it found and wrote, and sets the case status, or changes nothing |
| Moderation.ModerationDesk.EnforceAction | apps/moderation/services.py:423-457 | what each action writes on each kind of target, and where it is refused |
| Moderation.ModerationDesk.AppealCase | apps/moderation/services.py:490-532 | the guards of an appeal in their order |
| Moderation.ModerationDesk.ResolveAppeal | apps/moderation/services.py:535-598 | resolving restores before it records, and records nothing when restoring is refused |
| Moderation.ModerationDesk.RestoreEnforcement | apps/moderation/services.py:601-673 | restoring writes back the found value only where the enforced one still stands |
| ModerationProofs.RunKeeps | apps/moderation/services.py:361-598 | over every run a case is appealed exactly when its appeal is pending, provenance is never altered, containment never lifted, and a case once decided is never decided again |
| ModerationProofs.OverturnMeans | apps/moderation/services.py:535-673 | an overturn goes through exactly when the case is not contained and the target still holds the enforced value; then the target is what it was, and otherwise nothing changes |
| ModerationProofs.ContainmentHolds | apps/moderation/services.py:460-510 | a contained case is never appealed anew and never gives its target back |
| ModerationProofs.ReverseOrderRestores | apps/moderation/services.py:383-673 | with no other writer, overturning the cases on a target in reverse order of decision restores the original value, and until then every live decision is in force |
| ModerationProofs.OverturnKeepsForce | apps/moderation/services.py:601-673 | an overturn leaves the other live decisions on its target in force exactly when there is none or the target held the enforced value before |
| ModerationProofs.FirstOverturnedFirst | apps/moderation/services.py:601-673 | the concrete run out of order, from two reports on: a project unpublished twice is published again while the second decision stands |
| ModerationMeaning.FilingMeans | apps/moderation/services.py:309-337 | what a report opens |
| ModerationMeaning.DecisionMeans | apps/moderation/services.py:361-457 | exactly which decisions go through, and what target and case are then |
| ModerationMeaning.ContainmentMeans | apps/moderation/services.py:460-487 | what containing a case changes |
| ModerationMeaning.AppealMeans | apps/moderation/services.py:490-532 | exactly which appeals go through |
| ModerationMeaning.ResolutionMeans | apps/moderation/services.py:535-673 | exactly which resolutions go through, and what target and case are then |
| Calendar.LongestStreak | apps/github_sync/services.py:815-821 | the running totals return the length of the longest run of active days |
| Calendar.BusiestMonth | apps/github_sync/services.py:823-838 | the first month with the most contributions, January when there are none |
| Calendar.Grid | apps/github_sync/views.py:333-345 | the padded, sliced and transposed cells put each day at its place, seven rows of equal length |
| Calendar.EveryDayOnce | apps/github_sync/views.py:333-345 | read column by column the grid shows each day once, in order, on the row of its own weekday |
| Calendar.MonthSpans | apps/github_sync/views.py:355-371 | the nested loops find the column of each month's first day and the columns to the next |
| Calendar.SpansFill | apps/github_sync/views.py:355-371 | the spans sum to the number of weeks and each is from four to six columns |
| Calendar.LevelsMeasure | apps/github_sync/views.py:348-352 | levels are within 0 to 4, zero exactly for days without contributions, and monotone in the count |
| Calendar.NothingIsCapped | apps/github_sync/views.py:348-352 | the cap at four never cuts a level down |
| CalendarMeaning.WeekdaysRunOn | apps/github_sync/views.py:333-345 | weekdays run on from year to year by the Gregorian leap rule |
| CalendarMeaning.MonthsStart | apps/github_sync/views.py:355-371 | months start after the days of the months before them |
| CalendarMeaning.LevelCountsSteps | apps/github_sync/views.py:348-352 | the level is the number of steps reached, each a quarter of the greatest count, rounded up |
| Deliverables.ToPython | apps/projects/forms.py:197-228 | the line loop reads the stripped, nonblank lines in order or returns the first error |
| Deliverables.RoundTrip | apps/projects/forms.py:188-228 | printing and reading a list gives the list back exactly when it has at most fifty entries, each with a trimmed label of 1 to 200 characters without bar and an empty or valid trimmed address not ending in a bar, none with a line break |
| Deliverables.ReadGivesTidy | apps/projects/forms.py:197-228 | whatever text is read gives at most fifty trimmed entries of that form |
| Deliverables.JoinedReadsBack | apps/projects/forms.py:188-201 | lines joined and split again are the lines, the stripping of the whole text reaching only into the last |
| DeliverablesMeaning.LinesFall | apps/projects/forms.py:197-228 | the lines of a text are what stands between its line breaks, CR LF being one |
| DeliverablesMeaning.LineMeans | apps/projects/forms.py:204-226 | a line is read as what stands, stripped, before and after its first bar, or refused for exactly what is wrong with it |
| DeliverablesMeaning.KeptMeans | apps/projects/forms.py:197-203 | the kept lines are the ones with words, in order |
| DeliverablesMeaning.ReadMeans | apps/projects/forms.py:197-228 | what is read of a whole text, entry by entry |

## Left out

- HTTP, templates, routing, the admin site, management commands, logging, metrics and tracing.
- HMAC and SHA-256 (a signature is valid or not, a digest is 32 octets), PEM armour and base64, JSON decoding, and the JWT text around the signature.
- Unicode normalisation, `splitlines` and `urlsplit` of the renderer's input: it starts from normalised lines and a predicate that accepts addresses; the URL validator of the deliverables field is such a predicate too.
- Regular expressions as such: headings, items, dividers, cells and inline tokens are scanning functions, each proved equal to its pattern written out as a decomposition of the text.
- The provider's replies, clocks and the mailer are parameters; the replay window of a delivery is a boolean.
- Authorization, MFA, actors, notes and most timestamps: a boolean guard for who may call, and no columns that only record who and why.
- Two rows of one connection sharing a node id, where the code falls back to the full name.
- Personal projects, whose lifecycle is separate, and project attachments, tasks, applications and screening questions.
- The scheduled publication date is the boolean "due"; moderation's direct write of a project status is modelled with the cases it belongs to, not in the lifecycle.
- Erasing the contributor of a record when an account is deleted, and changing badge or policy definitions.
- Recognition's leaderboards, anomaly summary and opt-out, community-health aggregates, exports, digests by time window, feature flags and analytics events.
- Cache operations of the limiter are atomic; a cache that fails denies, and entries leave only by expiring.
- Levels of the calendar use integer division; the code divides floating-point numbers, which agree for counts of any real size.
- LedgerOrder.OrderIndependence: assumes that the connection stays active and bound to its project; that no delivery id is an event id, because otherwise it is false, as CollidingDeliveryBlocksCredit shows; that a sweep's delivery id was not used by a webhook of another event, because the sweep's insert then fails; and that all deliveries of one event id carry the same event, although issue, pull request, review and release ids share one namespace and an issue closed again by another actor keeps its id, because the ledger takes the first and notes the others as duplicates, as CreditableAdmittedIff shows. Drains, refusals, repetitions and other repositories are not restricted.
- LedgerSweep.SweepCompletes: assumes that the provider lists only events of the repository itself, because otherwise it is false, as ForeignEventStalls shows.

# Verification of the MasterQala protocols

Dafny models of the parts of MasterQala that are protocols rather than screens, with proofs of
what they promise over every run.

Each state machine has two files. The first holds the code's own form: a class whose fields are
the refs, rows or storage keys the source updates, and whose methods are proved to take its
abstract state to that of an After function; every `await`, transaction and browser callback is a
step of its own. The second (`...Laws`) folds those steps over arbitrary sequences of events and
proves what holds in every reachable state; a third, where there is one, says what is answered or
done and exactly when, in terms of what happened before. String algorithms are loops proved
against recursive specifications, about which the laws are proved.

## Modules

- **SmsLogin**, **SmsAnswers**: codes by SMS, with the sending window, the life of a code, the attempt
  counter and newest-only lookup; the bound of 15 guesses in five minutes, shown to be the best one;
  and every answer read off the answers before it.
- **AlertDelivery**, **AlertOutcomes**, **AlertLifecycle**, **AlertRecords**: racing delivery workers
  with backoff, and what becomes of a row; operator transitions and escalation sweeps against the
  audit trail.
- **KeysetPaging**, **SecurityAuditList**, **SecurityAlertList**, **ListFilters**: cursor paging,
  complete for the audit list, and for the alert list exactly when severity does not contradict time.
- **OperatorLocks**, **OperatorRelease**, **Reviews**, **ReviewRecords**: operator writes whose outcome
  is unknown, when they are let go, and the server step the verification client relies on.
- **OrderSubmission**, **NewOrderPending**, **PendingAnswers**, **DraftSession**, **DraftInputs**,
  **PlannedDraft**, **PlannedAnswers**, **CurrentSubmission**: client drafts and pending markers in
  session storage that may fail on any call.
- **OrderState**, **OrderCommands**, **PlannedOrder**, **PlannedCommands**, **OperatorRead**,
  **OperatorReads**, **MasterPresence**, **PresenceOutcomes**: asynchronous reads and commands guarded
  by generations, lifetimes and revisions: what never happens, and exactly when what is meant does.
- **Expressions**, **ExpressionGrammar**, **Css**, **CssLaws**, **ImportantLaws**, **CssOutput**,
  **CssGrammar**, **CamelAttributes**, **JsText**: the string machines of the design runtime.
- **Ledger**, **LedgerHistory**: lead credits with bids and refunds, cancellation penalties and
  callout compensation.

`dafny verify dfyconfig.toml` checks everything.

## Assumptions

- Millisecond timestamps. For the guess limit the clock does not go back for one phone, for the
  cancellation block not for one master, and for the attempt spacing a failure is not stamped before
  the claim it belongs to. `generation` is strictly increasing, ids and UUIDs do not
  repeat, `maxAttempts` does not change, and database transactions on one key are serialised,
  including the cancellations of one master. For what a master is offered on a planned order, the server
  keeps a published order without a master and a selected one with its bid.
- React runs the effects of one render before the component renders again, and a lifetime that was
  replaced does not come back.
- Storage and network are parameters: any storage call may throw and any answer may be late, lost or
  repeated. An operator's locks are considered within one signed-in session of one tab.
- The server creates an order once per owner and client request id, and a request is authenticated
  as the owner it was begun for.
- `Date.parse` reads back what `toISOString` writes, and service slots end after they start.

## What the code does not promise

- An assignment can be sent twice when `getItem` fails for just its own marker: the scan passes the
  key over. The promise holds in exactly the runs without that step (`NoUnexcusedPost`,
  `AssignmentSafeIff`). The comment in the source says that the key itself is the lock.
- The unfiltered alert list can skip or repeat alerts (`SkippedAlert`, `RepeatedAlert`); it does not
  exactly if severity follows time (`ExactIffSeverityFollowsTime`).
- A pending marker is removed when `getItem` throws or another account reads it (`MarkerFate`).
- A confirmation can remove the draft of a newer request of the same account, exactly when that
  account has two requests pending (`SharedDraftLostIff`), which takes a beginning beside a stored
  one that storage hides (`CrowdedIff`).
- Clearing apart, a planned request is lost exactly when another account saves a draft or begins one
  that storage lets through (`RecordFate`), and the first account can then issue a second one
  (`AnotherAccountReplaces`).
- A worker that stops while sending leaves its row in SENDING for good, since a row is claimed only
  from PENDING or FAILED (`AbandonedStays`, `ChangesIff`). The exhausted event can also be inserted
  for a row that is SENT, exactly while the worker of the last attempt runs (`SentMayExhaustIff`).
- An application sent in twice can reopen an approved profile. An approval holds exactly if no
  application that read the profile is still to be written (`ApprovalHoldsIff`).
- A bid records the credit it takes as a positive amount, so the amounts of a master who ever spent
  one do not add up to the balance (`AmountsAddUpIff`).
- A quoted text with an equality operator in it is read as a comparison (`QuotedIff`).

## Model

| member | source | states |
|---|---|---|
| `SmsLogin.AuthService.RequestCode` | apps/api/src/auth/auth.service.ts:27-61 | one serialised transaction: refuses a bad phone or the fourth code within ten minutes, otherwise adds a row that expires after five minutes; the new rows and the answer are those of RequestFor |
| `SmsLogin.AuthService.VerifyCode` | apps/api/src/auth/auth.service.ts:63-123 | compares only with the newest unused, unexpired row of the phone with fewer than five attempts; a wrong code costs an attempt, the right one marks the row used |
| `SmsLoginLaws.SendLimit` | apps/api/src/auth/auth.service.ts:39-57 | over every run and whatever the clock does, at most three codes of a phone were created in any closed ten-minute window |
| `SmsLoginLaws.SendRate` | apps/api/src/auth/auth.service.ts:39-57 | k such windows hold at most 3k codes |
| `SmsLoginLaws.RowsKept` | apps/api/src/auth/auth.service.ts:74-97 | every row keeps at most five comparisons, a five-minute life and increasing generations |
| `SmsLoginLaws.ComparesIsAnswer` | apps/api/src/auth/auth.service.ts:78-110 | what counts as a comparison is exactly an answer other than unavailable |
| `SmsLoginLaws.GuessRate` | apps/api/src/auth/auth.service.ts:14-106 | an interval of the phone has at most 15 comparisons for each ten-minute window that covers it and the five minutes before it |
| `SmsLoginLaws.GuessLimit` | apps/api/src/auth/auth.service.ts:14-106 | at most 15 comparisons fall in any closed five-minute interval |
| `SmsLoginLaws.GuessLimitReached` | apps/api/src/auth/auth.service.ts:14-106 | 15 is the best bound: for every phone some run reaches it |
| `SmsLoginLaws.LoginsAreOnce` | apps/api/src/auth/auth.service.ts:74-97 | after a login every later comparison of that phone is with a newer code: codes are used once |
| `SmsLoginLaws.NormalizeStable` | apps/api/src/common/phone.ts:1-5 | a stored phone normalises to itself |
| `SmsLogin.AuthService.SetBlocked` | apps/api/src/admin-users/admin-users.service.ts:36-64 | blocking and unblocking an existing account; an operator is not blocked |
| `SmsAnswers.RequestAnswered` | apps/api/src/auth/auth.service.ts:27-61 | after any calls a code is sent exactly to a well-formed phone that was sent fewer than three within the last ten minutes, and the message holds that code |
| `SmsAnswers.VerifyAnswered` | apps/api/src/auth/auth.service.ts:63-112 | each answer to a submitted code, read off the earlier answers alone: it is a login exactly if the code is the one last sent to the phone, not five minutes old, not given before and not missed five times, and the account is not blocked; blocked, wrong and unavailable likewise, each with its exact condition |
| `SmsAnswers.AccountsOf` | apps/api/src/admin-users/admin-users.service.ts:36-64 | an account exists exactly after a right code for its phone and starts unblocked; the answers to blocking it |
| `SmsAnswers.OnePhone` | apps/api/src/common/phone.ts:1-5 | the three ways to write a number are one phone, wherever spaces, dashes, brackets or points stand |
| `AlertDelivery.SecurityAlertDelivery.Deliver` | apps/api/src/admin/security-alert-delivery.service.ts:104-121 | a worker claims a row only from PENDING or FAILED, when it is due and has an attempt left |
| `AlertDelivery.SecurityAlertDelivery.AlertLoaded` | apps/api/src/admin/security-alert-delivery.service.ts:123-135 | a worker without an alert goes straight to markFailure |
| `AlertDelivery.SecurityAlertDelivery.WebhookAnswered` | apps/api/src/admin/security-alert-delivery.service.ts:163-176 | an answer other than success goes to markFailure |
| `AlertDelivery.SecurityAlertDelivery.StoreSent` | apps/api/src/admin/security-alert-delivery.service.ts:178-186 | SENT is stored only over SENDING; a database failure goes to markFailure |
| `AlertDelivery.SecurityAlertDelivery.TouchAlert` | apps/api/src/admin/security-alert-delivery.service.ts:187-197 | a failure here also goes to markFailure, after SENT was stored |
| `AlertDelivery.SecurityAlertDelivery.MarkFailure` | apps/api/src/admin/security-alert-delivery.service.ts:202-228 | FAILED or EXHAUSTED only over SENDING; the audit event is inserted whenever the attempts are used up |
| `AlertDeliveryLaws.DeliveryLimits` | apps/api/src/admin/security-alert-delivery.service.ts:104-228 | with any racing workers, duplicate jobs and crashes: at most maxAttempts webhook calls, one live worker, FAILED leaves an attempt, EXHAUSTED leaves none and has exactly one audit event |
| `AlertDeliveryLaws.FinalStays` | apps/api/src/admin/security-alert-delivery.service.ts:113-117 | a SENT or EXHAUSTED row never changes again |
| `AlertDeliveryLaws.AbandonedStays` | apps/api/src/admin/security-alert-delivery.service.ts:113-117 | a row whose worker stopped while sending stays in SENDING for good |
| `AlertDeliveryLaws.ChangesIff` | apps/api/src/admin/security-alert-delivery.service.ts:107-121 | a row of any run can still change if and only if it is PENDING or FAILED, or SENDING with a worker that is alive |
| `AlertDeliveryLaws.SentMayExhaustIff` | apps/api/src/admin/security-alert-delivery.service.ts:178-228 | a SENT row without an exhausted event can still get one if and only if the worker of the last attempt has not finished |
| `AlertDeliveryLaws.LastAttemptSent` | apps/api/src/admin/security-alert-delivery.service.ts:187-228 | such a row is reached, for every id |
| `AlertDeliveryLaws.NoSecondClaim` | apps/api/src/admin/security-alert-delivery.service.ts:107-121 | a row in a worker's hands is never claimed a second time |
| `AlertDeliveryLaws.DelayRange` | apps/api/src/admin/security-alert-delivery.service.ts:204-205 | delays grow and stay between a minute and an hour |
| `AlertDeliveryLaws.OffsetClosed` | apps/api/src/admin/security-alert-delivery.service.ts:204-205 | the delays before the n-th attempt add up to 60 (2^(n-1) - 1) seconds for n up to 7 and to 3780 + 3600 (n - 7) beyond |
| `AlertDeliveryLaws.AttemptsSpaced` | apps/api/src/admin/security-alert-delivery.service.ts:111-117 | the n-th attempt starts at least that long after the first, with racing workers and clocks in any order, as long as no failure is stamped before the claim it belongs to |
| `AlertOutcomes.SentWasAnswered` | apps/api/src/admin/security-alert-delivery.service.ts:163-186 | in every run a row is SENT only if the webhook was called for its last claim and answered that call with success |
| `AlertOutcomes.RetryAfterFailure` | apps/api/src/admin/security-alert-delivery.service.ts:202-217 | a recorded failure with an attempt left makes the row FAILED; until it is claimed, whatever else happens, it can be claimed at exactly the times from the end of the delay on, and a claim is the next attempt |
| `AlertOutcomes.AttemptOutcome` | apps/api/src/admin/security-alert-delivery.service.ts:104-228 | an attempt that nothing interrupts, in every case: the status, next time, calls and audit events it leaves |
| `AlertLifecycle.SecurityAlerts.Transition` | apps/api/src/admin/security-observability.service.ts:175-229 | acknowledging only from OPEN, resolving from OPEN or ACKNOWLEDGED, each with one audit event; the order of the other answers |
| `AlertLifecycle.SecurityAlerts.Assign` | apps/api/src/admin/security-observability.service.ts:231-266 | assigning is refused for a non-operator, an unknown or a resolved alert |
| `AlertLifecycle.SecurityAlerts.EscalateOne` | apps/api/src/admin/security-alert-delivery.service.ts:257-297 | escalates only an alert still in the status it was selected with and below the level; the delivery is skipped if its key exists |
| `AlertLifecycle.SecurityAlerts.EscalateOverdue` | apps/api/src/admin/security-alert-delivery.service.ts:253-253 | the loop over the candidates is that many single escalations in order |
| `AlertLifecycleLaws.OnlyForward` | apps/api/src/admin/security-observability.service.ts:175-229 | over every run no alert goes back in status or level, and a resolved alert never escalates |
| `AlertLifecycleLaws.BreachedOnce` | apps/api/src/admin/security-alert-delivery.service.ts:257-297 | each alert and level has at most one breach event and exactly as many breach deliveries; a level above 0 has its event |
| `AlertLifecycleLaws.SweepTakes` | apps/api/src/admin/security-alert-delivery.service.ts:232-255 | a sweep takes exactly the alerts it selected off the overdue list |
| `AlertLifecycleLaws.SweepsFinish` | apps/api/src/admin/security-alert-delivery.service.ts:232-255 | n sweeps at one time leave the overdue count reduced by n limits, so they reach zero |
| `AlertRecords.AlertsAreRecorded` | apps/api/src/admin/security-observability.service.ts:175-266 | in every run each alert is what its audit trail says: status, who acknowledged and resolved it, assignee and level |
| `AlertRecords.TransitionAnswered` | apps/api/src/admin/security-observability.service.ts:175-229 | a transition is done exactly if it takes a known alert forward, and then to the status asked for; the condition of every other answer; the last refusal in the code is never given |
| `AlertRecords.AssignmentAnswered` | apps/api/src/admin/security-observability.service.ts:231-266 | when an assignment is done and the exact condition of each refusal |
| `AlertRecords.EscalationDone` | apps/api/src/admin/security-alert-delivery.service.ts:257-297 | when a selected alert is escalated, to which level and with which reason |
| `AlertRecords.SweepRaisesMissed` | apps/api/src/admin/security-alert-delivery.service.ts:232-255 | a sweep raises only alerts that missed a deadline |
| `AlertRecords.DeadlinesAreCounted` | apps/api/src/admin/security-alert-delivery.service.ts:232-255 | after enough sweeps no missed deadline is left uncounted |
| `SecurityAuditList.PagesComplete` | apps/api/src/admin/security-audit.service.ts:21-58 | following the cursors from the start ends and returns exactly the matching events of the first request, newest first with ids breaking ties, each once, while newer events are added between requests |
| `KeysetPaging.InsertionsUnseen` | apps/api/src/admin/security-audit.service.ts:31-56 | rows added above the cursor do not change the pages, and one request per full page and one more suffice |
| `KeysetPaging.ExactIff` | apps/api/src/admin/security-observability.service.ts:141-172 | for one page size the pages return the whole listing in its order if and only if the last row of every full page separates the listing in time |
| `KeysetPaging.ExactForEveryLimit` | apps/api/src/admin/security-observability.service.ts:141-172 | for every page size if and only if the rank never contradicts the time |
| `SecurityAlertList.ExactIffPagesSeparate` | apps/api/src/admin/security-observability.service.ts:132-173 | the same for the alert list and its limit |
| `SecurityAlertList.ExactIffSeverityFollowsTime` | apps/api/src/admin/security-observability.service.ts:132-173 | the alert list is returned exactly for every page size if and only if no matching alert was seen before a less severe one |
| `SecurityAlertList.SeverityFilterIsExact` | apps/api/src/admin/security-observability.service.ts:144-148 | with a severity filter every page size is exact |
| `SecurityAlertList.SkippedAlert` | apps/api/src/admin/security-observability.service.ts:149-159 | without it an alert can be skipped: a listed example, for any number of requests |
| `SecurityAlertList.RepeatedAlert` | apps/api/src/admin/security-observability.service.ts:149-159 | and one can be listed twice |
| `ListFilters.AuditListed` | apps/api/src/admin/security-audit.service.ts:21-30 | an audit event is listed exactly if it agrees with every filter given |
| `ListFilters.AlertListed` | apps/api/src/admin/security-observability.service.ts:144-148 | an alert likewise, placed by its severity and the time it was last seen |
| `OperatorLocks.OperatorWrites.Reload` | apps/operator/lib/operator-order-recovery.ts:5-13 | restoring the assignment locks: a throwing scan blocks the hook, a key whose value cannot be read is passed over |
| `OperatorLocks.OperatorWrites.Select` | apps/operator/lib/operator-dispute-controller.ts:48-48 | selecting a target looks up its marker (verification and dispute) |
| `OperatorLocks.OperatorWrites.Assign` | apps/operator/lib/useOperatorAssignment.ts:31-47 | scan for a marker, persist the lock, then send; each storage failure stops it |
| `OperatorLocks.OperatorWrites.Decide` | apps/operator/lib/operator-verification-controller.ts:58-61 | the same for a decision, which looks at the one marker |
| `OperatorLocks.OperatorWrites.Resolve` | apps/operator/lib/operator-dispute-controller.ts:64-64 | the same for a resolution, which looked when the dispute was selected |
| `OperatorLocks.OperatorWrites.Answered` | apps/operator/lib/useOperatorAssignment.ts:38-46 | only the lock the answer belongs to is touched; a definite refusal is remembered in storage |
| `OperatorLocks.OperatorWrites.Reconcile` | apps/operator/lib/useOperatorAssignment.ts:18-20 | one fresh read of a locked target at a time |
| `OperatorLocks.OperatorWrites.ReadAnswered` | apps/operator/lib/useOperatorAssignment.ts:21-29 | unlocks only if the attempt was refused or the read shows the target is done |
| `OperatorLocksLaws.LocksHaveMarkers` | apps/operator/lib/useOperatorAssignment.ts:12-47 | in every run of the three hooks, with reloads, throwing storage, lost replies and late answers, every in-memory lock has its marker and busy means one pending lock |
| `OperatorLocksLaws.NoUnexcusedPost` | apps/operator/lib/useOperatorAssignment.ts:12-47 | in such a run no second POST for a target goes out before a read that excuses it (issued after a refusal, or showing it done), if and only if no step of the run is an assignment of a held target whose lock is gone from memory while storage works and just its marker cannot be read |
| `OperatorLocksLaws.NoUnexcusedDecision` | apps/operator/lib/operator-verification-controller.ts:39-68 | for decisions and resolutions the same with no condition on storage |
| `OperatorLocksLaws.MonitoredIsSafe` | apps/operator/lib/useOperatorAssignment.ts:31-47 | the running monitor used in the proof decides exactly the promise stated over the whole traffic |
| `OperatorLocksLaws.AssignmentSafeIff` | apps/operator/lib/operator-order-recovery.ts:8-11 | an assignment keeps the promise if and only if it is not the case that its target is held, its lock is gone from memory, storage works and just its marker cannot be read |
| `OperatorLocksLaws.UnreadableMarkerBreaks` | apps/operator/lib/operator-order-recovery.ts:10-10 | the first such step of a run does send the second POST, although the marker is there |
| `OperatorLocksLaws.UnreadableMarkerExample` | apps/operator/lib/operator-order-recovery.ts:10-10 | a run of three steps that does so |
| `OperatorRelease.ReleasedIff` | apps/operator/lib/useOperatorAssignment.ts:18-29 | in every run an answered read of a current lock lets its target go, in memory and in storage, if and only if it succeeded, storage can be written, and it shows the target as done or the attempt was refused; otherwise the target stays locked and marked |
| `OperatorRelease.RefusedIsReleased` | apps/operator/lib/useOperatorAssignment.ts:23-25 | a refusal that storage took is remembered through any steps, reloads included: until the target is sent again, any successful read of its lock lets it go |
| `OperatorRelease.ReleasedSendsIff` | apps/operator/lib/useOperatorAssignment.ts:31-47 | for a target that was let go, exactly when an allowed submission sends again |
| `OperatorRelease.AnswerLeaves` | apps/operator/lib/useOperatorAssignment.ts:38-46 | in every run, what the answer to a lock's own POST leaves: success starts a read, a refusal is remembered, anything else stays unknown, and the target stays locked and marked |
| `OperatorRelease.EveryLockCanGo` | apps/operator/lib/operator-verification-controller.ts:50-57 | from every state of every run each lock can still be let go within two answers |
| `OperatorRelease.ReloadRestores` | apps/operator/lib/operator-order-recovery.ts:5-13 | what a reload and then a selection restore in each hook |
| `Reviews.AdminService.Decide` | apps/api/src/admin/admin.service.ts:104-163 | a compare-and-set from PENDING_REVIEW with its verdict and audit entry; the order of the refusals |
| `Reviews.OneDecisionPerRound` | apps/api/src/admin/admin.service.ts:127-161 | of two decisions on a profile the later follows a new submission; the status is what the last step made it; verdicts and audit entries are the decisions in order |
| `Reviews.DecidedStays` | apps/api/src/admin/admin.service.ts:127-136 | once a profile is not under review, no decision on it is committed until an application for it is written, which is what lets the verification client unlock |
| `Reviews.ApprovalHoldsIff` | apps/api/src/masters/masters.service.ts:65-90 | an active profile stays active whatever comes later if and only if no application that read it is still to be written |
| `Reviews.ApprovedIsReopened` | apps/api/src/masters/masters.service.ts:65-90 | a run, for every profile, in which such an application puts an active master back under review |
| `ReviewRecords.ProfilesShowDecisions` | apps/api/src/admin/admin.service.ts:127-161 | in every run each profile shows its last submission or decision: approved is active, rejected carries the reason given, a request for information none; each decision is audited under its own name, and only an approval may do without a comment |
| `ReviewRecords.DecisionAnswered` | apps/api/src/admin/admin.service.ts:104-139 | when a decision is done, the exact condition of each refusal, and that a refusal changes nothing |
| `OrderSubmission.SubmissionIsStable` | packages/ui/src/new-order-draft.ts:101-110 | what the validator accepts it accepts again unchanged |
| `OrderSubmission.SubmissionSurvives` | packages/ui/src/new-order-draft.ts:101-110 | and unchanged after a trip through JSON |
| `NewOrderPending.PendingCreates.ReadPending` | packages/ui/src/new-order-draft.ts:125-144 | a damaged marker of the owner stays pending; any other, or one that cannot be read, is removed |
| `NewOrderPending.PendingCreates.Begin` | packages/ui/src/new-order-draft.ts:145-152 | refused while something is pending; stored, or kept in memory when storage fails |
| `NewOrderPending.PendingCreates.Resolve` | packages/ui/src/new-order-draft.ts:171-188 | the order of the two removals and what each storage failure leaves behind |
| `NewOrderPending.PendingCreates.Clear` | packages/ui/src/new-order-draft.ts:44-49 | logging out removes what storage lets it remove |
| `NewOrderPendingLaws.MarkerReadsBack` | packages/ui/src/new-order-draft.ts:130-136 | a stored marker reads back as the request it was written for, and as nothing for another account |
| `NewOrderPendingLaws.BegunReadsBack` | packages/ui/src/new-order-draft.ts:125-155 | a request just begun reads back as itself, never as damaged, and is recoverable exactly if begun with a submission |
| `NewOrderPendingLaws.OneOrderPerCreation` | packages/ui/src/new-order-draft.ts:145-169 | under any mix of sends, recoveries, duplicates, reloads, draft edits and storage failures, all that is sent under a key carries the submission begun under it, and an idempotent server makes at most one order of it |
| `NewOrderPendingLaws.MarkerFate` | packages/ui/src/new-order-draft.ts:125-188 | a stored marker outlives a step if and only if the step is not its own confirmation, a logout, or a read or beginning that overlooks it |
| `NewOrderPendingLaws.NextOrderNeedsEnd` | packages/ui/src/new-order-draft.ts:145-146 | with readable storage an account begins another order only after such a step |
| `NewOrderPendingLaws.ResolvesOnlyItsOwn` | packages/ui/src/new-order-draft.ts:171-188 | exactly when a confirmation removes the marker, the memory record and the draft, and counts as settled: only for its exact owner and request, and never anything else |
| `NewOrderPendingLaws.SharedDraftLostIff` | packages/ui/src/new-order-draft.ts:179-183 | in every run a confirmation removes the draft of an account with another request pending if and only if it removes the draft at all and there is such a request |
| `NewOrderPendingLaws.CrowdedIff` | packages/ui/src/new-order-draft.ts:145-155 | an account comes to have two requests pending exactly by beginning one beside a stored one that storage hides, keeps and does not replace |
| `NewOrderPendingLaws.NewerDraftKept` | packages/ui/src/new-order-draft.ts:171-188 | in a run without such a beginning no confirmation removes the draft of another pending request |
| `NewOrderPendingLaws.SecondDraftLost` | packages/ui/src/new-order-draft.ts:179-183 | a run in which one is lost, for every account and pair of ids |
| `PendingAnswers.BeginsIff` | packages/ui/src/new-order-draft.ts:145-152 | exactly when an order is begun, and where its request is kept |
| `PendingAnswers.ReadShows` | packages/ui/src/new-order-draft.ts:125-144 | what a read shows, and what it removes under each storage failure |
| `PendingAnswers.MarkerConcerns` | packages/ui/src/new-order-draft.ts:130-139 | which stored markers concern an account: a damaged one stays pending and cannot be sent again |
| `PendingAnswers.SendsWhatWasBegun` | packages/ui/src/new-order-draft.ts:153-169 | a request can be sent exactly if begun with a submission under a UUID, and then with that submission |
| `PendingAnswers.ValidIff` | packages/ui/src/new-order-draft.ts:101-113 | the validator gives a submission back exactly if it meets every rule |
| `CurrentSubmission.CurrentOrderIs` | packages/ui/src/new-order-draft.ts:111-114 | a draft is submitted with its address text, the coordinates of its pin and no empty optional text, and is refused while its location must be confirmed or when it breaks a rule |
| `CurrentSubmission.NoPinThrows` | packages/ui/src/new-order-draft.ts:111-114 | without a pin it throws, unless the location must be confirmed first |
| `PendingAnswers.ClearForgets` | packages/ui/src/new-order-draft.ts:43-49 | logging out forgets the request in memory whatever storage does |
| `DraftSession.EditingSession.Set` | packages/ui/src/new-order-draft.ts:68-73 | an edit and what it does to the confirmation of the location |
| `DraftSession.EditingSession.Patch` | packages/ui/src/new-order-draft.ts:74-78 | several properties at once |
| `DraftSession.EditingSession.RequestLocation` | packages/ui/src/new-order-draft.ts:79-80 | each request has a new revision |
| `DraftSession.EditingSession.Reply` | packages/ui/src/new-order-draft.ts:81-81 | the reply of a request |
| `DraftSession.EditingSession.ApplyInitialLocation` | packages/ui/src/new-order-draft.ts:83-86 | never over a restored or chosen location |
| `DraftSession.LateReply` | packages/ui/src/new-order-draft.ts:68-82 | whatever happens in between, a reply is applied if and only if the session is still open and nobody edited the pin or the address or asked again; applied it moves the pin and no other input |
| `DraftInputs.InputsAreLastEdits` | packages/ui/src/new-order-draft.ts:57-78 | through any edits, requests and replies each text and the photos are what was last put in |
| `DraftInputs.NeededUntilConfirmed` | packages/ui/src/new-order-draft.ts:68-82 | a location that must be confirmed stays so exactly until the pin is placed or the latest request answered |
| `DraftInputs.ChosenIff` | packages/ui/src/new-order-draft.ts:68-82 | a location counts as chosen exactly once the pin was placed, an address typed or the latest location taken |
| `DraftInputs.UnconfirmedIsNotChosen` | packages/ui/src/new-order-draft.ts:73-73 | while a confirmation is needed other edits leave it not chosen |
| `DraftInputs.InitialIff` | packages/ui/src/new-order-draft.ts:83-86 | the position found at the start moves the pin exactly of a new draft whose location is not chosen yet |
| `DraftInputs.SavedIsShown` | packages/ui/src/new-order-draft.ts:57-62 | what storage last took is the draft shown |
| `PlannedDraft.PlannedDraftStore.Save` | apps/client/lib/planned-draft.ts:53-56 | refused while something is pending, unclear or done |
| `PlannedDraft.PlannedDraftStore.Begin` | apps/client/lib/planned-draft.ts:57-60 | issues a request only after it was stored |
| `PlannedDraft.PlannedDraftStore.Settle` | apps/client/lib/planned-draft.ts:61-64 | only the pending request with that id |
| `PlannedDraft.PlannedDraftStore.Clear` | apps/client/lib/planned-draft.ts:65-65 | removes the record unless storage fails |
| `PlannedDraftLaws.DraftSurvives` | apps/client/lib/planned-draft.ts:30-36 | an accepted draft is accepted unchanged from storage |
| `PlannedDraftLaws.PayloadReadsBack` | apps/client/lib/planned-draft.ts:44-48 | the validator rebuilds the submission from the stored payload, although coordinates and empty texts are not stored |
| `PlannedDraftLaws.BegunReadsBack` | apps/client/lib/planned-draft.ts:44-60 | a submission just begun reads back pending and certain, with the same key, draft and payload |
| `PlannedDraftLaws.RecordFate` | apps/client/lib/planned-draft.ts:50-65 | a pending, unclear or done record stays its owner's through a step if and only if the step is no clearing and no draft or request of another account that storage lets through |
| `PlannedDraftLaws.NextRequestNeedsTaking` | apps/client/lib/planned-draft.ts:53-64 | whatever all accounts and storage do, an account issues its next request only after such a step |
| `PlannedDraftLaws.OneRequest` | apps/client/lib/planned-draft.ts:53-64 | in a run of all accounts without such a step an account issues at most one request |
| `PlannedDraftLaws.OneAccountOneRequest` | apps/client/lib/planned-draft.ts:53-64 | an account alone in the tab issues at most one between two clearings, whatever storage does |
| `PlannedDraftLaws.AnotherAccountReplaces` | apps/client/lib/planned-draft.ts:50-60 | after another account's draft has replaced the record the first account issues again exactly if its draft is complete |
| `PlannedAnswers.SavesIff` | apps/client/lib/planned-draft.ts:53-56 | exactly when a draft is saved, and that it reads back as itself |
| `PlannedAnswers.DraftValidIff` | apps/client/lib/planned-draft.ts:30-36 | the rules of a planned draft |
| `PlannedAnswers.CompleteIff` | apps/client/lib/planned-draft.ts:37-43 | what a planned request needs |
| `CurrentSubmission.PlannedOrderIs` | apps/client/lib/planned-draft.ts:37-40 | a planned draft is submitted with its texts trimmed at the default coordinates, exactly if that meets the rules |
| `CurrentSubmission.RequestIsWanted` | apps/client/lib/planned-draft.ts:37-43 | a planned request is for what the draft asks for, at the slot chosen, with its budget |
| `PlannedAnswers.BeginsIff` | apps/client/lib/planned-draft.ts:57-60 | exactly when one is begun |
| `PlannedAnswers.SettlesIff` | apps/client/lib/planned-draft.ts:61-64 | a begun request is settled exactly by its own id with an order id, and then reads back as done under that order |
| `PlannedAnswers.PendingNeverForgotten` | apps/client/lib/planned-draft.ts:44-60 | a record that names anything pending is shown as pending or uncertain and refuses another draft or request |
| `OrderState.UseOrderState.Render` | packages/ui/src/useOrderState.ts:6-7 | a render captures the generation of that moment |
| `OrderState.UseOrderState.Load` | packages/ui/src/useOrderState.ts:8-15 | a read drops the verification and starts a generation |
| `OrderState.UseOrderState.RunEffect` | packages/ui/src/useOrderState.ts:16-24 | the cleanup of the old order and the read of the new one |
| `OrderState.UseOrderState.ReadAnswered` | packages/ui/src/useOrderState.ts:12-14 | verifies only the newest read of the order shown |
| `OrderState.UseOrderState.Mutate` | packages/ui/src/useOrderState.ts:25-27 | a command is dispatched exactly if its render is verified and current |
| `OrderState.UseOrderState.ActionDone` | packages/ui/src/useOrderState.ts:28-32 | the lock is held until the read that follows |
| `OrderStateLaws.CommandsAreFreshlyBased` | packages/ui/src/useOrderState.ts:5-33 | for any interleaving of refreshes, switches of order and late answers, every command is based on a read issued after all earlier commands on that order ended, and commands come one at a time |
| `OrderCommands.CapturedDispatchesIff` | packages/ui/src/useOrderState.ts:25-27 | a render of a verified order, called at any later time, dispatches its command if and only if it was fresh and on line and nothing happened to the order since |
| `OrderCommands.CanDispatch` | packages/ui/src/useOrderState.ts:6-33 | from every state of every run the order shown can come to that within six steps |
| `OrderCommands.LockOpens` | packages/ui/src/useOrderState.ts:27-31 | a command on its way ends with its action and the read after it |
| `OrderCommands.UnmountedIsSilent` | packages/ui/src/useOrderState.ts:23-26 | an unmounted hook verifies nothing and sends nothing until its effect runs |
| `PlannedOrder.UsePlannedOrder.Replace` | apps/master/lib/usePlannedOrder.ts:20-23 | another owner or order starts a new lifetime; old tasks stay in flight |
| `PlannedOrder.UsePlannedOrder.Refresh` | apps/master/lib/usePlannedOrder.ts:41-45 | one read at a time while live |
| `PlannedOrder.UsePlannedOrder.Act` | apps/master/lib/usePlannedOrder.ts:48-55 | a command takes the lock and reads first |
| `PlannedOrder.UsePlannedOrder.Checked` | apps/master/lib/usePlannedOrder.ts:55-67 | posts only if status, master and selected bid are unchanged and the action is still allowed |
| `PlannedOrder.UsePlannedOrder.Balanced` | apps/master/lib/usePlannedOrder.ts:60-65 | a paid bid needs a credit; a 403 or 404 of the balance shows the order as unavailable |
| `PlannedOrder.UsePlannedOrder.PostAnswered` | apps/master/lib/usePlannedOrder.ts:66-71 | a lost answer leads to a read, not to a repetition |
| `PlannedOrder.UsePlannedOrder.Confirmed` | apps/master/lib/usePlannedOrder.ts:71-86 | what the last read means for the command |
| `PlannedOrderLaws.CommandsAreProven` | apps/master/lib/usePlannedOrder.ts:41-87 | reads and commands of a lifetime never overlap; every POST is the only one of its command, rests on that command's own read (and balance) and comes before its lifetime ends; while a task of the shown lifetime runs, the lock is held |
| `PlannedOrderLaws.ReplacedIsInert` | apps/master/lib/usePlannedOrder.ts:24-40 | an answer for a lifetime that is over sends nothing, unlocks nothing and shows nothing |
| `PlannedCommands.OfferedIff` | apps/master/lib/plannedFeed.ts:51-65 | for every order the server shows to a master an action is offered exactly if the server accepts it of this master |
| `PlannedCommands.PostsIff` | apps/master/lib/usePlannedOrder.ts:48-68 | a command whose lifetime stays posts exactly if its own read shows nothing changed and the action still offered, a paid bid is covered and the browser is on line; otherwise it is over with nothing sent |
| `PlannedCommands.CommandEnds` | apps/master/lib/usePlannedOrder.ts:66-87 | how a posted command ends, for every answer of the POST and of the read after it |
| `PlannedCommands.RefreshOutcome` | apps/master/lib/usePlannedOrder.ts:35-46 | what a refresh leaves for every answer; an order that is not this master's is dropped |
| `PlannedCommands.ReplacedIsNew` | apps/master/lib/usePlannedOrder.ts:20-23 | another owner or order starts as a new hook does |
| `OperatorRead.UseOperatorRead.Replace` | apps/operator/lib/useOperatorRead.ts:9-9 | another owner or path moves the generation on |
| `OperatorRead.UseOperatorRead.Retry` | apps/operator/lib/useOperatorRead.ts:10-14 | one read at a time, each with a new generation |
| `OperatorRead.UseOperatorRead.ReadAnswered` | apps/operator/lib/useOperatorRead.ts:13-17 | only the newest read of the current owner and path is shown |
| `OperatorRead.VerifiedIsNewest` | apps/operator/lib/useOperatorRead.ts:6-21 | a render that calls its data verified got it from the newest read ever issued, for the owner and path shown now |
| `OperatorRead.StaleForever` | apps/operator/lib/useOperatorRead.ts:20-21 | once the generation has moved on the render is never verified again |
| `OperatorRead.MovesOn` | apps/operator/lib/useOperatorRead.ts:9-12 | every replacement, unmount and new read moves it on |
| `OperatorReads.VerifiedUntil` | apps/operator/lib/useOperatorRead.ts:9-21 | a verified render stays so exactly until another owner or path, an unmount or a newer read |
| `OperatorReads.CanBeVerified` | apps/operator/lib/useOperatorRead.ts:10-21 | in every state of every run a read and its answer make the next render verified |
| `MasterPresence.MasterPresenceSession.Restore` | apps/master/lib/masterPresence.tsx:91-92 | a pending-offer read takes a new revision |
| `MasterPresence.MasterPresenceSession.Restored` | apps/master/lib/masterPresence.tsx:93-98 | its answer, and what it keeps of the offer shown |
| `MasterPresence.MasterPresenceSession.OnOffer` | apps/master/lib/masterPresence.tsx:103-103 | a new offer |
| `MasterPresence.MasterPresenceSession.OnClosed` | apps/master/lib/masterPresence.tsx:104-109 | a closed offer removes only a matching one |
| `MasterPresence.MasterPresenceSession.Accept` | apps/master/lib/masterPresence.tsx:143-146 | accepting takes the lock for the offer shown |
| `MasterPresence.MasterPresenceSession.Decline` | apps/master/lib/masterPresence.tsx:156-159 | declining; only a direct payment reaches the server |
| `MasterPresence.MasterPresenceSession.ActionAnswered` | apps/master/lib/masterPresence.tsx:146-161 | a failed accept is reconciled by a read before the lock is released |
| `MasterPresence.MasterPresenceSession.GoOnline` | apps/master/lib/masterPresence.tsx:119-123 | asks for a position with a new revision |
| `MasterPresence.MasterPresenceSession.PositionAnswered` | apps/master/lib/masterPresence.tsx:124-135 | goes on line only if still asked for |
| `MasterPresence.MasterPresenceSession.TimedPosition` | apps/master/lib/masterPresence.tsx:128-134 | later positions of the same revision |
| `MasterPresence.MasterPresenceSession.GoOffline` | apps/master/lib/masterPresence.tsx:137-140 | ends the revision |
| `MasterPresenceLaws.RestoreInTime` | apps/master/lib/masterPresence.tsx:91-98 | a pending-offer answer is applied if and only if the component is live and no newer read, offer, closing or accept or decline boundary came since it was asked for |
| `MasterPresenceLaws.ActionsAlone` | apps/master/lib/masterPresence.tsx:143-162 | an accept or decline goes out only when no other is in flight, for the offer shown |
| `MasterPresenceLaws.OffIsOff` | apps/master/lib/masterPresence.tsx:119-140 | nothing asked for before going off line or leaving is emitted after it; the server was last told on line exactly while that is intended |
| `PresenceOutcomes.AcceptOutcome` | apps/master/lib/masterPresence.tsx:143-155 | an accept is sent once and keeps the lock until it is answered; any answer takes the offer off the screen, a failed one holds the lock for one more read |
| `PresenceOutcomes.DeclineOutcome` | apps/master/lib/masterPresence.tsx:156-162 | a direct payment is declined on the server and goes when that is taken; any other goes at once with nothing sent |
| `PresenceOutcomes.PositionInTime` | apps/master/lib/masterPresence.tsx:119-136 | a position takes the master on line exactly if nothing ended the request before it came |
| `PresenceOutcomes.RestoredShows` | apps/master/lib/masterPresence.tsx:96-97 | what a pending-offer read in time leaves on the screen |
| `PresenceOutcomes.ClosedRemovesIff` | apps/master/lib/masterPresence.tsx:103-109 | a closing message removes exactly the offer it is about |
| `Expressions.ParensWrapWhole` | apps/MasterQala/design_handoff_masterqala/support.js:237-247 | the loop computes its recursive specification |
| `Expressions.FindTopLevelEquality` | apps/MasterQala/design_handoff_masterqala/support.js:248-262 | likewise, with its two continue branches |
| `Expressions.Evaluate` | apps/MasterQala/design_handoff_masterqala/support.js:205-236 | resolve as it runs computes Resolve, and ends on every text |
| `Expressions.ResolvePath` | apps/MasterQala/design_handoff_masterqala/support.js:263-294 | likewise for paths |
| `ExpressionGrammar.ResolvePrinted` | apps/MasterQala/design_handoff_masterqala/support.js:205-294 | on every text printed from the grammar of paths, brackets, literals, negation, parentheses and right-nested equality, with any white space and quoted texts whose brackets are balanced and which show no operator outside them, the evaluator returns the value of the tree |
| `ExpressionGrammar.OperatorsMean` | apps/MasterQala/design_handoff_masterqala/support.js:213-225 | the four equality operators between any two operands, by the host's own strict and loose equality |
| `ExpressionGrammar.StepsMean` | apps/MasterQala/design_handoff_masterqala/support.js:263-294 | a name, a dot and a bracket: the property of what comes before, and undefined when that is null or undefined |
| `ExpressionGrammar.QuotedIff` | apps/MasterQala/design_handoff_masterqala/support.js:214-234 | a quoted text evaluates to its body if and only if findTopLevelEquality finds no operator in it |
| `ExpressionGrammar.QuotedOperator` | apps/MasterQala/design_handoff_masterqala/support.js:248-262 | one in which it does |
| `Css.ScanUnquotedUrl` | apps/MasterQala/design_handoff_masterqala/support.js:1428-1440 | the loop finds the end of an unquoted url |
| `Css.StripCommentsLoop` | apps/MasterQala/design_handoff_masterqala/support.js:1441-1471 | the loop computes StripComments |
| `Css.SplitLoop` | apps/MasterQala/design_handoff_masterqala/support.js:1472-1494 | the loop cuts the text as Split does |
| `Css.ImportantifyLoop` | apps/MasterQala/design_handoff_masterqala/support.js:1472-1496 | the whole of importantify |
| `CssLaws.StripIdempotent` | apps/MasterQala/design_handoff_masterqala/support.js:1441-1471 | stripping twice is stripping once, no comment is left outside strings and urls, and a text without one is left as it is |
| `CssOutput.CommentBecomesSpace` | apps/MasterQala/design_handoff_masterqala/support.js:1441-1471 | wherever a comment stands it becomes one space, the text before it is kept and the text after it stripped by itself; an unclosed one runs to the end |
| `CssOutput.CommentsBecomeSpaces` | apps/MasterQala/design_handoff_masterqala/support.js:1441-1471 | every text that is not comment-free is of that form, which with the comment-free ones says what stripping gives for every text |
| `CssGrammar.CommentsReplaced` | apps/MasterQala/design_handoff_masterqala/support.js:1427-1471 | on every text written as plain text, strings, urls, comments, brackets and semicolons, stripping replaces exactly the comments, whatever stands inside strings and urls |
| `ImportantLaws.SplitExact` | apps/MasterQala/design_handoff_masterqala/support.js:1472-1494 | the pieces make up the text, none is cut inside a string, an unquoted url or brackets, and they are the only such pieces |
| `ImportantLaws.ImportantifyIdempotent` | apps/MasterQala/design_handoff_masterqala/support.js:1472-1496 | importantify twice is importantify once |
| `ImportantLaws.ImportantifyReadsBack` | apps/MasterQala/design_handoff_masterqala/support.js:1472-1496 | the result reads back as the declarations emitted, each trimmed and ending in the mark, with no comment left |
| `CssOutput.ImportantifyMarksEach` | apps/MasterQala/design_handoff_masterqala/support.js:1472-1496 | the result holds, in order, exactly one declaration for each piece of the stripped text that is not blank: the piece trimmed, with the mark added unless it ends in one |
| `CssGrammar.SplitPrinted` | apps/MasterQala/design_handoff_masterqala/support.js:1472-1494 | such a text is cut at its semicolons outside brackets and nowhere else |
| `CssGrammar.DeclarationsMarked` | apps/MasterQala/design_handoff_masterqala/support.js:1472-1496 | and importantify gives one declaration for each text between them that is not blank |
| `CssOutput.MarkedIff` | apps/MasterQala/design_handoff_masterqala/support.js:1495-1495 | which declarations end in the mark |
| `CamelAttributes.EncodeRoundTrip` | apps/MasterQala/design_handoff_masterqala/support.js:366-371 | decoding an encoded attribute name gives the name, and lower-casing does not touch the code |
| `CamelAttributes.AttributeSurvivesLowering` | apps/MasterQala/design_handoff_masterqala/support.js:422-423 | an attribute name survives the parser's lower-casing |
| `Ledger.LeadCreditBooks.BeginPurchase` | apps/api/src/lead-credits/lead-credits.service.ts:21-32 | refused when credits are not sold or the package is unknown; otherwise a pending purchase with the price of the package |
| `Ledger.LeadCreditBooks.Charged` | apps/api/src/lead-credits/lead-credits.service.ts:34-51 | the payment is recorded, and credits are booked only if it succeeded |
| `Ledger.LeadCreditBooks.Spend` | apps/api/src/planned-orders/planned-orders.service.ts:318-329 | a bid takes a credit only from a balance of at least one, and is recorded |
| `Ledger.LeadCreditBooks.Refund` | apps/api/src/planned-orders/planned-orders.service.ts:497-504 | a cancellation by the client gives the credit back, and is recorded |
| `Ledger.LeadCreditBooks.ApplyPenalty` | apps/api/src/common/master-penalty.service.ts:29-42 | two credits and the transaction for them |
| `Ledger.LeadCreditBooks.PenalizeForCancellation` | apps/api/src/common/master-penalty.service.ts:45-68 | the penalty, the cancellation and the block from the third one |
| `Ledger.CompensationService.AccrueCallout` | apps/api/src/common/compensation.service.ts:9-30 | an accrual and a credit, unless the order has its accrual |
| `LedgerLaws.CreditsConserved` | apps/api/src/lead-credits/lead-credits.service.ts:29-51 | over any run of purchases, bids, refunds, penalties and cancellations each balance is the signed sum of its transactions, and exactly the purchases recorded as succeeded are booked, each once and with its credits |
| `LedgerLaws.AmountsAddUpIff` | apps/api/src/planned-orders/planned-orders.service.ts:318-329 | the amounts as recorded exceed the balance by two for each credit spent, so they add up to it if and only if the master never spent one |
| `LedgerHistory.BalanceIsDue` | apps/api/src/lead-credits/lead-credits.service.ts:29-51 | over any run the balance is what was paid for by the packages on sale, less bids and penalties, plus refunds; a bid is accepted exactly if that is at least one, a refund exactly if the account exists |
| `LedgerHistory.PurchaseAnswered` | apps/api/src/lead-credits/lead-credits.service.ts:21-32 | how a purchase is answered after any run, with the prices on sale |
| `LedgerHistory.PurchasesAreRecorded` | apps/api/src/lead-credits/lead-credits.service.ts:26-51 | each purchase records who bought what at which price, and the first answer to its payment |
| `LedgerHistory.BlocksAreAudited` | apps/api/src/common/master-penalty.service.ts:54-67 | a block is audited for each third cancellation within thirty days and for no other |
| `LedgerHistory.PriorityIsDay` | apps/api/src/common/master-penalty.service.ts:29-42 | low priority lasts a day from the last penalty |
| `LedgerLaws.BlocksIsThird` | apps/api/src/common/master-penalty.service.ts:54-58 | the count the service makes finds exactly a third cancellation within thirty days |
| `LedgerLaws.ThreeCancellationsBlock` | apps/api/src/common/master-penalty.service.ts:54-62 | after any three cancellations within thirty days the block lasts at least seven days past the third, and a block is always seven days past such a third one; only the cancellations of that master need to be in the order of the clock |
| `LedgerLaws.CompensationConserved` | apps/api/src/common/compensation.service.ts:9-30 | an order is compensated at most once however often it is accrued, and wallets hold the sum of accruals beside other movements |
| `LedgerHistory.CompensatedIff` | apps/api/src/common/compensation.service.ts:9-30 | over any run an order is compensated exactly if it was paid and had a master at some accrual: that master gets the callout price less the service fee |

## Left out

- Rendering, loading and error flags, notes, sounds, navigation and other state that is only shown.
- React strict mode's double effects, other tabs, and logging out or changing the operator role,
  which wipes every stored operator lock; the assignment hook's `busy` flag surviving a change of
  owner.
- Response validators, except where a round trip depends on them, and the stored new-order draft's
  own validator: the draft is a value with an owner here.
- Signing, HTTP, sockets, geolocation and the payment provider, which are answers given to the
  model; which rows `dispatchPending` picks and whether a job queue or the worker itself sends them.
- Time zones: `serviceSlot` is a parameter. JavaScript's equality, truthiness and property lookup
  are a parameter of the expression evaluator, and the numbers of stored values are reals without a
  negative zero.
- UTF-16: lengths are counted in Dafny characters. Objects with a `toString` of their own are not
  considered where a regular expression takes a text.
- Retention of audit events and alerts that change while they are paged; the paging theorem for a
  growing table is for the audit list.
- Withdrawals are not part of this model, except that any other movement of a wallet is allowed and
  recorded; what a bid needs besides its credit is not part of it either.
- The services for orders, matching, planned orders and disputes, and the database triggers that
  create alerts and set their deadlines, are not part of this model.
- Guards, CRUD controllers, the address book, the operator users controller apart from blocking, and
  the action half of the security controller: the same patterns with weaker rules.
- SplitPrinted: the grammar writes complete strings and urls; what the scanners make of unfinished ones
  is covered by SplitExact, ImportantifyIdempotent and CommentsBecomeSpaces, which are for every text.
- ResolvePrinted: quoted texts in the grammar have balanced brackets and show no operator outside
  them; for a quoted text alone QuotedIff says exactly when it is read correctly.
- DeliveryLimits: an exhausted event does not imply that the row is EXHAUSTED, because the code
  inserts one after SENT was stored if the alert cannot be touched; SentMayExhaustIff says when.

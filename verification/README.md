# Outbound message engine: model and proofs

This project models the engine that sends outbound messages to leads: the queue of approved, scheduled
emails that several scheduler workers work off; the sequence engine that decides which touch a lead gets
next and reserves it before any text is generated; the editing of sequences under live references;
follow-up previews and generation; and the small cores around them (rate limiter, webhook deduplicator,
membership cache, signed OAuth state, subject normalisation, time texts). Tables are maps from primary key to
row. Every committed transaction is one atomic step. The transport's answers, the clock, the generated
texts, lost database writes and exceptions are inputs that may take any value.

## How the project is laid out

- `Messages`, `Steps`, `Drafts`, `Outreach`: the tables and, as pure functions, what each operation does to them.
- `DraftService`, `MarketingAgent`, `SequenceService`, `TenantService`, `RateLimit`, `WebhookDedup`: classes whose
  methods change rows, buckets and caches in place, with the loops of the original, each proved against those
  functions or against predicates over the old and the new state.
- `SchedulerRuns`, `LifecycleRuns`, `Draining`, `QueueRounds`, `TouchRuns`, `EditedRuns`: state machines over whole runs: every
  interleaving of workers, human decisions, claims of touches, sequence edits, clock ticks and crashes.
- `SchedulerLimits`, `LifecycleLimits`, `TouchLimits`: exactly where those guarantees end, and runs that cross the line.
- `ClaimSelection`, `StepSearch`, `TouchPositions`, `CampaignRun`, `SequenceEdits`, `Followups`: refinement and
  accounting results about single operations.
- `NumberedRuns`: over whole runs, the touches of a lead that can be reached are its campaign's steps, one after the other.
- `IsoTime`, `Subjects`, `OAuthState`, `TenantCache`: text, codec and cache results.
- `DraftMeaning`, `RoundMeaning`, `OutreachMeaning`, `CampaignMeaning`, `EditMeaning`, `FollowupMeaning`, `SubjectMeaning`, `Gregorian`,
  `AccessMeaning`: what the functions of the other modules mean, in the words of rows, steps, addresses, words of
  a text, months and seconds, without the functions themselves.
- `Common`, `Text`: optional values, sums over tables, substring search.

## What the proofs show about the code

A run is called undisturbed when no batch starts while a live worker with work left has outlived the claim timeout, and
nobody approves, rejects, deletes or marks as sent a message that a live process is still sending. Results that need
this say so; every other result about runs holds for late workers and overlapping decisions as well.

- Exclusivity, the attempt bound and the approval of every call hold draft by draft (`DraftExclusivity`,
  `AttemptBound`, `CallsAreApproved`): all they ask is that no batch is started while a live worker's claim of this
  draft has expired, and that this draft is not scheduled again while a live worker has it. What happens to the
  other drafts does not matter.
- Starting a batch can put a draft into two exactly when a live worker's claim of it has outlived the timeout
  (`BatchSharesExactlyWhenClaimExpired`). Scheduling a draft keeps its claims exactly when no live worker has it
  (`SchedulingKeepsClaimsExactly`), and otherwise the next worker can always share it (`ReschedulingShares`). The latter
  can happen within all timeouts, because the pause sweep (services/draft_service.py:581-588) ignores the age of a claim.
- In every run the attempt counter counts the calls of the transport (`CounterCountsAttempts`). The calls exceed the
  maximum exactly when one is made with no attempt left (`TooManyCallsExactlyWhenOverrun`); the query that picks a row up
  (services/draft_service.py:399-410) does not ask for one, nor for an approval, so a worker that outlives the timeout
  can do both (`LateWorkerExceedsAttemptBound`, `LateWorkerCallsUnapproved`).
- Results are written by id only (services/draft_service.py:465-540). A message that is there stops being SENT, REJECTED or
  FAILED exactly by such a late result (`ResolutionChangesExactlyByLateResult`): a rejected draft becomes SENT, a sent one goes back to the
  queue. The lifecycle invariant of a message breaks exactly by an attempt begun with none left, or by a failure reported
  for a row whose approval is gone (`InvariantBreaksExactly`), which is then queued without an approval.
- The queue gains work exactly when a message is scheduled, or when a worker's failure requeues one that had left the queue
  (`QueueGrowsExactly`); the latter can happen within all timeouts (`FailureRefillsQueue`). Any other step drains it.
- A pair gets a touch out of order exactly when a row is recorded beside an unsent touch, or by a late result for one of its
  messages (`MoveBreaksExactly`); `LateFailureBesideReservation` is a run in which a late worker's failure leaves a pair
  with two unresolved touches. What happens to other pairs does not matter, and a lead's position after a sent, linked
  reservation needs no such condition at all (`SentReservationAdvances`).
- Stored instants are whole seconds, so a claim can expire up to one second before the timeout has really
  elapsed, and never earlier (`ExpiryIsASecondEarlyAtMost`). A schedule request with a fraction of a second may be
  taken within that last second before the requested instant, never before the stored one (`ClaimFilterIsTimely`).
- The text that accompanies a skip says that the campaign advanced to the next step
  (outreach/marketing_agent.py:222). That is true exactly when the lead has a campaign_leads row and its last
  counted touch has no linked step (`SkipsAreConsecutiveExactlyWhenTheyAdvance`). Otherwise one claim leaves five
  skip rows for the same step, reserves nothing, and the next claim does the same again (`StuckLoopRepeats`).
- The unique index on first touches lets a pair have one live touch without a step row. A claim is rejected exactly when
  the first sendable step has no step row and such a touch exists (`ClaimRejectedExactly`), so where steps are defined
  without step rows a lead never gets past its first one (`UnlinkedStepsComeOnce`).
- The follow-up generator gives a pair a second unresolved touch exactly when it inserts a draft while some counted touch
  of the pair has not been sent (`FollowupBreaksExactly`). It looks for duplicates of one step only, and not for
  reservations: GENERATING is not in its list (services/sequence_service.py:271-275).
- A touch that was delivered but whose save failed is reported as sent and its row stays GENERATING for good
  (outreach/marketing_agent.py:746-780); together with lost failure writes these are the only rows a campaign run
  leaves in that state (`ClaimedRowEnds`, `GeneratingIsStranded`).
- A callback that raises when a candidate is announced makes the run count that candidate twice, and that is the only way
  in which the counters fail to add up (`AccountsBalanceExactly`).
- Previewing follow-ups agrees with generating them if and only if no two due rows stand for the same step of the
  same lead; the primary key of campaign_leads guarantees that (`PreviewIsGeneration`, `ListingAgrees`).
- In runs in which a lead can be reached on every step, and every step has a step row, the k-th touch is linked to step k and
  no step is taken twice (`TouchesAreTheStepsInOrder`, `NoStepTwice`). A failed transport is tried again exactly from the
  retry delay on, and no batch holds the message before unless it was approved or edited again (`RetryIsDue`, `RetryWaits`).
- While a pair that is in order has an unresolved touch no claim for it succeeds, so a touch left GENERATING blocks its lead until
  somebody removes it (`UnresolvedTouchBlocksClaims`). Runs may start from empty tables (`EmptyEngineIsSound`).
- A cached absence of a membership is treated as a miss, so refusals are never cached; writes of another process
  do not clear the cache, and then an answer is at most one lifetime old (`StalenessIsBounded`).

## Model

| member | source | states |
|---|---|---|
| SchedulerRuns.DraftExclusivity | services/draft_service.py:557-622 | a draft is never in two live workers' batches, nor twice in one, in any run in which no batch starts over an expired claim of it and it is not scheduled while a live worker has it; the other drafts do not matter |
| SchedulerRuns.WorkerExclusivity | services/draft_service.py:557-622 | in no state of a run of prompt workers without re-approvals is any draft in two live workers' batches |
| SchedulerRuns.StepKeepsSafe | services/draft_service.py:581-622 | every step that is orderly for a draft keeps its claims: the row is not claimable by others, and not yet begun rows stay claimed and approved with attempts left |
| SchedulerRuns.CounterCountsAttempts | services/draft_service.py:438-444 | in every run, from one scheduling to the next, the counter of a draft rises by exactly the number of calls of the transport for it |
| SchedulerRuns.TooManyCallsExactlyWhenOverrun | services/draft_service.py:399-444 | in every run the calls exceed the maximum if and only if one of them is made with no attempt left |
| SchedulerRuns.CallsBoundedByAttempts | services/draft_service.py:438-444 | over any stretch of a run that is orderly for the draft, attempts at the start plus calls of the scheduler stay within the maximum |
| SchedulerRuns.AttemptBound | services/draft_service.py:354-358 | after a schedule approval the scheduler calls the transport for that draft at most max_attempts times until it is scheduled again, crashes, edits and late workers on other drafts included |
| SchedulerRuns.CallsAreApproved | services/draft_service.py:399-413 | a call of the scheduler finds the row SENDING, approved, claimed by the caller and with an attempt left |
| SchedulerRuns.CallHasApproval | services/draft_service.py:354-358 | behind every call there is a scheduling of the draft, the last one, after which it was never withdrawn |
| SchedulerRuns.ReturnedIsNotSent | services/draft_service.py:739-759 | in every run, a scheduled draft returned to review while no live worker has it is never due and never called for until it is scheduled again |
| SchedulerRuns.ReturnMeetsNoBatch | services/draft_service.py:739-759 | in a run that is orderly for the draft no live worker has it when it is returned |
| SchedulerRuns.RowVanishesExactlyByDeletion | services/draft_service.py:816-846 | a row disappears if and only if it is deleted while an unapproved draft or failed, and its id never comes back or is called for |
| SchedulerLimits.ClaimExpiresExactlyAtTimeout | services/draft_service.py:589-609 | a claimed row with attempts left goes back to the queue if and only if its claim is at least the timeout old |
| SchedulerLimits.ExpiryIsASecondEarlyAtMost | services/draft_service.py:28-39 | rounding to seconds shortens the timeout by less than a second and never lengthens it |
| SchedulerLimits.BatchSharesExactlyWhenClaimExpired | services/draft_service.py:589-616 | some batch start shares the draft if and only if a live worker's claim of it has expired while it is due with an attempt left |
| SchedulerLimits.SchedulingKeepsClaimsExactly | services/draft_service.py:354-358 | scheduling a draft keeps its claims if and only if no live worker has it |
| SchedulerLimits.ReschedulingShares | services/draft_service.py:354-358 | in every state in which a live worker has a draft that is back in review, scheduling it lets the next worker claim it too |
| SchedulerLimits.LateWorkerLosesExclusivity | services/draft_service.py:589-616 | a run in which a worker outlives the timeout and a second worker claims the same draft |
| SchedulerLimits.ReapprovalLosesExclusivity | services/draft_service.py:581-588 | a run within all timeouts in which pausing and re-approving an attempt in flight puts one draft in two batches |
| SchedulerLimits.LateWorkerCallsUnapproved | services/draft_service.py:405-408 | a run in which a late worker calls the transport for a draft that is back in review |
| SchedulerLimits.LateWorkerExceedsAttemptBound | services/draft_service.py:438-444 | for every maximum, a run with one approval in which a worker that outlives the timeout brings the calls above it |
| LifecycleRuns.StepKeepsSteady | services/draft_service.py:307-622 | every undisturbed step keeps the lifecycle invariant and the state of what is in flight, and only unapproved drafts and failed rows vanish |
| LifecycleRuns.LifecycleInvariant | services/draft_service.py:354-382 | in every state of every undisturbed run: queued rows are approved, with approver and time; a claim time is set if and only if SENDING; SCHEDULED is below and SENDING within the attempt maximum |
| LifecycleRuns.InvariantBreaksExactly | services/draft_service.py:438-540 | in any state a step breaks the row invariant of a message if and only if it begins an attempt with none left or requeues a row without a full approval |
| LifecycleRuns.RowStaysOk | services/draft_service.py:354-382 | the row invariant of a message holds in every state of every run without such a step for this message |
| LifecycleRuns.ResolutionChangesExactlyByLateResult | services/draft_service.py:465-540 | in any state a message that is there stops being SENT, REJECTED or FAILED if and only if a late result is written onto it |
| LifecycleRuns.UndisturbedMeansNoLateResult | services/draft_service.py:465-540 | undisturbed runs have no late results |
| LifecycleLimits.UndisturbedMeansUnbroken | services/draft_service.py:438-540 | undisturbed runs have no step that breaks the row invariant |
| LifecycleRuns.SentAndRejectedAbsorb | services/draft_service.py:465-470 | a row that is SENT or REJECTED is there with that status in every later state of every run without late results for it |
| LifecycleLimits.DeliveryOverwritesRejection | services/draft_service.py:463-470 | a run in which a draft rejected while it is being sent becomes SENT |
| LifecycleLimits.LateFailureReopensSent | services/draft_service.py:517-538 | a run in which a late failure takes a SENT message back to the queue or to review |
| LifecycleLimits.FailureRequeuesUnapproved | services/draft_service.py:534-538 | a run within all timeouts in which a failure queues a draft that was returned to review, without an approval |
| Draining.AttemptsRiseExactly | services/draft_service.py:517-540 | in any state a step gives a message automatic attempts back if and only if it schedules the message or requeues one that had left the queue |
| Draining.QueueGrowsExactly | services/draft_service.py:517-540 | in any state the attempts left in the whole queue rise if and only if a step schedules or requeues some message |
| Draining.StepDrains | services/draft_service.py:517-540 | any other step leaves at most the attempts there were, and one less if it calls for a queued message with an attempt left |
| Draining.QueueDrains | services/draft_service.py:517-540 | in every run, late workers and overlapping decisions included, while nothing is scheduled or requeued, attempts used plus attempts left never exceed the attempts there were |
| Draining.MessageDrains | services/draft_service.py:517-540 | the same for one message, whatever is scheduled or requeued elsewhere |
| Draining.UndisturbedDrains | services/draft_service.py:517-540 | undisturbed runs requeue nothing, and every call of the scheduler uses an attempt |
| Draining.FailureRefillsQueue | services/draft_service.py:534-538 | a run within all timeouts in which a failure refills the queue with a draft that was returned to review |
| ClaimSelection.DueQueryAnswers | services/draft_service.py:669-677 | whatever order the table is visited in, the query returns min(limit, number due) distinct due rows in order of time, none left out being earlier than one taken |
| ClaimSelection.AnyOrderIsClaimed | services/draft_service.py:657-661 | the order in which the updated rows are returned does not change what is claimed |
| QueueRounds.ClaimFrames | services/draft_service.py:641-685 | a claim moves exactly the chosen rows to SENDING, each ready to be sent, and leaves every other row as it was |
| QueueRounds.BatchProgress | services/draft_service.py:619-622 | after n sends of a batch the n rows have left SENDING, stand for less work and keep the row invariant; all other rows are untouched |
| QueueRounds.ClaimedIsFound | services/draft_service.py:402-413 | in a round without interference every claimed draft is still sendable when its turn comes |
| QueueRounds.RoundDrains | services/draft_service.py:557-622 | a scheduler round keeps the lifecycle invariant, never adds work, and with everything ripe strictly lowers it |
| QueueRounds.QueueEmpties | services/draft_service.py:557-630 | after as many ripe rounds as there was work, nothing is queued any more, whatever the transport answers |
| RoundMeaning.RoundMeans | services/draft_service.py:616-631 | each claimed draft of a round gets its own answer at its own time and ends accordingly; every other row is as the sweep left it |
| RoundMeaning.DeliveredCountMeans | services/draft_service.py:616-631 | the number reported as sent is the number of delivered answers |
| DraftService.DraftService.SendApprovedDraft | services/draft_service.py:392-554 | one send: not found, delivered, content block, paused after the last attempt, retry later, or error noted, with the whole new table |
| DraftService.DraftService.ProcessSingleDraftApproval | services/draft_service.py:305-389 | approve, schedule or reject one pending draft; every refused request leaves the table as it was |
| DraftService.DraftService.UpdateScheduledDraft | services/draft_service.py:688-736 | the order of the checks, and an edit that keeps approval and attempts |
| DraftService.DraftService.ClaimDueScheduledDrafts | services/draft_service.py:633-685 | the single statement claims the earliest due rows nobody has locked, in any order; the query with guarded updates claims the earliest due rows, in order of time; both frame every other row |
| DraftService.DraftService.SendDueScheduledDrafts | services/draft_service.py:557-630 | the loop performs a round, and its counters agree with what the transport answered |
| DraftService.ResendKeepsSubject | services/draft_service.py:423-442 | whatever came of one attempt, another attempt stores the same subject |
| DraftMeaning.SchedulingMeans | services/draft_service.py:327-358 | a pending draft that is scheduled may be claimed exactly from its time on, with all its attempts; any other request changes nothing |
| DraftMeaning.FailureMeans | services/draft_service.py:517-540 | a queued message that is not delivered has failed if its content was refused, is back in review without attempts left, and otherwise may be claimed exactly from now plus the retry delay on |
| DraftMeaning.DeliveryMeans | services/draft_service.py:463-470 | a delivered message is SENT and approved, keeps the approver it had, and has one attempt more and its normalised subject |
| DraftMeaning.RetryIsDue | services/draft_service.py:534-538 | over runs: after a failure with attempts left the message may be claimed exactly from the failure plus the retry delay on |
| DraftMeaning.RetryWaits | services/draft_service.py:534-538 | over runs: until then no batch takes it unless it is scheduled or edited to an earlier time |
| DraftMeaning.ApprovalWaits | services/draft_service.py:354-358 | over runs: no batch takes a scheduled draft before its time unless it is scheduled or edited to an earlier one |
| DraftMeaning.SweepingMeans | services/draft_service.py:581-609 | which rows the sweeps pause or give back, and with what columns |
| IsoTime.TextOrderIsTimeOrder | services/draft_service.py:28-60 | the fixed-width UTC texts of section 5.1 of RFC 3339 compare as text exactly as their instants compare, over all months and leap years |
| IsoTime.ClaimFilterIsTimely | services/draft_service.py:651-652 | the claim filter takes a draft exactly from its stored instant on, and when that is before the requested instant |
| IsoTime.ReclaimFilterIsAge | services/draft_service.py:592-593 | the reclaim filter compares whole-second ages with the timeout |
| IsoTime.RetryIsDelayed | services/draft_service.py:535-538 | the retry time is after exactly the instants before now plus the delay |
| Gregorian.DateOfIsGregorian | services/draft_service.py:28-39 | the date of a day number is a date by the twelve month lengths of section 5.7 of RFC 3339, and its closed day count is that number |
| Gregorian.TextReadsBack | services/draft_service.py:28-60 | the stored text of an instant is a well-formed time stamp that reads back to the instant through the closed day count |
| Gregorian.StampsAreWholeSeconds | services/draft_service.py:28-60 | the texts of now, of a later or earlier instant and of a schedule request read back to the instant cut to its second |
| Subjects.NormalizeTwice | utils/email_deliverability.py:20-38 | normalising a subject twice for one company equals normalising it once |
| Subjects.NormalizedSourceIsUnmarked | services/sequence_service.py:73-81 | normalising an unmarked text never brings back a reply or forward mark |
| Subjects.SequenceSubject | services/sequence_service.py:73-81 | the stripping loop ends, and its result carries no reply or forward mark and is stable under normalisation |
| SubjectMeaning.NormalizeKeepsWords | utils/email_deliverability.py:20-28 | a subject with a word and without one of the eight phrases keeps its words; any other becomes the request subject |
| SubjectMeaning.RequestNamesCompany | utils/email_deliverability.py:31-38 | the request subject for no or a generic company, for StayEZ and for any other, by the words it contains |
| SubjectMeaning.UnmarkedKeepsWords | services/sequence_service.py:73-81 | a rendered subject without mark or phrase keeps its words |
| SubjectMeaning.MarkIsDropped | services/sequence_service.py:73-81 | a leading reply or forward mark is dropped and what follows it decides |
| StepSearch.LoopSearchesInOrder | outreach/marketing_agent.py:296-333 | when skips advance the lead, the loop passes over exactly the run of unreachable steps and stops where that run ends |
| StepSearch.ClaimTakesFirstSendable | outreach/marketing_agent.py:296-350 | for every lead, a claim reserves step n if and only if nothing holds the lead back, n is the first defined, reachable, due step of at most five (only the lead's own step where skips do not advance it) and the index lets it in, leaving one skip row for each step before it and the reservation, and nothing else |
| OutreachMeaning.NextNumberMeans | outreach/marketing_agent.py:112-143 | the next step is one more than: without touches, the touch count; the linked step; else the touch count unless 0; else the least step on the channel; else the number of sent touches |
| OutreachMeaning.ClaimMeans | outreach/marketing_agent.py:72-352 | a claim for a lead at step s reserves a step if and only if the lead may be contacted, it is the first reachable one of the next five, its delay is over, and the index lets it in |
| OutreachMeaning.FreshClaimMeans | outreach/marketing_agent.py:142-160 | a lead without touches and with touch count 0 is reserved the first step it can be reached on, counted from step 1 |
| OutreachMeaning.ReservedRowMeans | outreach/marketing_agent.py:328-349 | the reserved row is new, of the pair, GENERATING, on the channel of its step and linked to the step row of that number |
| OutreachMeaning.GateMeans | outreach/marketing_agent.py:72-121 | what holds a lead back, and the reason given for it |
| OutreachMeaning.UsableMeans | outreach/marketing_agent.py:47-61 | an email address with an @, eight digits of a telephone number, a LinkedIn address that is not blank |
| StepSearch.ClaimRejectedExactly | db/schema.sql:538-543 | for every lead, a claim is rejected by the index if and only if its reservable step has no step row and the pair has a live touch without one |
| StepSearch.UnlinkedStepsComeOnce | db/schema.sql:538-543 | a lead with a live touch without a step row is never reserved another such step |
| StepSearch.ExhaustedClaimMakesProgress | outreach/marketing_agent.py:298-333 | a claim that spends all its visits on skips moves the lead five steps on and lowers the number of defined steps ahead |
| StepSearch.StuckLoopRepeats | outreach/marketing_agent.py:127-133 | when skips do not advance the lead, every visit leaves the same skip row and the lead is where it was |
| StepSearch.SkipsAreConsecutiveExactlyWhenTheyAdvance | outreach/marketing_agent.py:247-250 | skipped steps are consecutive if and only if the lead has a campaign_leads row and its last touch is not linked |
| TouchPositions.ClaimShape | outreach/marketing_agent.py:282-352 | a claim is skip rows and then at most one insert of what the search finds at that point, or leaves the database alone |
| TouchPositions.LinkedSentTouchDecides | outreach/marketing_agent.py:112-133 | a linked last touch gives the next step number whatever the touch count says |
| TouchPositions.ClaimThenSentAdvances | outreach/marketing_agent.py:127-133 | after a linked claim of step s that is sent, with no newer touch, the next step is s + 1 whatever else changed |
| TouchPositions.ClaimThenFailRestores | outreach/marketing_agent.py:394-416 | after a claim that fails, the next step and the search are what they were just before the insert |
| TouchPositions.ClaimedMeansEligible | outreach/marketing_agent.py:72-181 | a reservation is made only for a known lead that has not opted out, answered or booked, whose last counted touch was sent, on a usable channel, and after the step's delay |
| TouchRuns.ClaimKeepsPending | outreach/marketing_agent.py:112-121 | a claim for any pair keeps every pair in order: of two counted touches the earlier is SENT |
| TouchRuns.ServiceBreaksExactly | services/draft_service.py:465-540 | an enabled step of the draft service puts a pair out of order if and only if it writes a late result for one of its messages that then counts, unsent before a later touch or after an earlier unsent one |
| TouchRuns.MoveBreaksExactly | outreach/marketing_agent.py:282-416 | a move puts a pair out of order if and only if it is such a step or records a row beside an unsent touch; claims, completions, failures and edits never do |
| TouchRuns.InsertBreaksExactly | outreach/marketing_agent.py:96-121 | a new row puts its pair out of order if and only if it counts and meets a counted touch out of order: it comes after an unsent one, or unsent before one |
| TouchRuns.OneUnresolvedTouch | outreach/marketing_agent.py:96-121 | in every state of every run without such a move for this pair, late workers and overlapping decisions included, the pair has at most one unresolved touch, and it is its latest counted touch |
| TouchLimits.CalmRunIsUnbroken | outreach/marketing_agent.py:96-121 | undisturbed runs that record rows beside sent touches only have no such move for any pair |
| TouchLimits.LateFailureBesideReservation | services/draft_service.py:517-538 | a run in which a worker that outlives the timeout reports a failure after the next touch was reserved, leaving two unresolved touches |
| TouchLimits.FollowupBreaksExactly | services/sequence_service.py:271-300 | a follow-up insert puts the pair out of order if and only if some counted touch of the pair has not been sent |
| TouchLimits.FollowupBesideReservation | services/sequence_service.py:271-275 | the generator inserts a draft beside a reservation for the very same step |
| TouchRuns.UnresolvedTouchBlocksClaims | outreach/marketing_agent.py:112-121 | in every state of such a run a claim for a pair with an unresolved touch is refused and changes nothing |
| TouchRuns.SentReservationAdvances | outreach/marketing_agent.py:127-133 | in every run, late workers and overlapping decisions included, once a linked reservation of step s is sent and until its pair gets another touch, the next step is s + 1 |
| EditedRuns.LinkedStepStays | services/sequence_service.py:197-208 | in every run whose step rows change by sequence edits only, the step row a message is linked to stays with its number as long as the message does |
| EditedRuns.SentReservationAdvancesUnderEdits | outreach/marketing_agent.py:97-133 | the same s + 1 in every run of claims, sends, decisions, late workers, crashes and sequence edits together |
| NumberedRuns.TouchesAreTheStepsInOrder | outreach/marketing_agent.py:112-143 | in every run from no touches in which the lead can be reached on every step when it is claimed for, each touch is linked to the step with one number more than there are touches before it, all of them sent |
| NumberedRuns.NoStepTwice | outreach/marketing_agent.py:112-143 | in such a run no two touches of a pair are for the same step |
| NumberedRuns.ClaimsFollowTheSteps | outreach/marketing_agent.py:112-143 | in such a run a claim reserves the step after as many as the pair has had touches |
| MarketingAgent.MarketingAgent.RecordSkippedSequenceStep | outreach/marketing_agent.py:189-250 | one failed row and a touch count raised to the step, never lowered |
| MarketingAgent.MarketingAgent.ClaimNextOutreachTouch | outreach/marketing_agent.py:282-352 | the bounded loop performs the claim of the specification; a missing lead, a rejected insert or another rolled-back transaction changes nothing |
| MarketingAgent.MarketingAgent.CompleteInitialOutreachTouch | outreach/marketing_agent.py:355-391 | the reserved row becomes SENT and approved, or an unapproved DRAFT |
| MarketingAgent.MarketingAgent.FailInitialOutreachTouch | outreach/marketing_agent.py:394-416 | only a row still GENERATING is marked FAILED, unless the write is lost |
| MarketingAgent.MarketingAgent.SettleTouch | outreach/marketing_agent.py:712-936 | sending or saving, counting and the exception handler together leave the row and the counts as the final-row specification says |
| MarketingAgent.MarketingAgent.ExecuteCampaign | outreach/marketing_agent.py:548-957 | examined + raised announcements = skipped + sent + drafted + failed; claims stay within the batch; the limit is reported if and only if candidates are left |
| CampaignRun.ClaimedRowEnds | outreach/marketing_agent.py:749-936 | a row claimed in a run ends as its own candidate's fortune says, whatever follows, and is still GENERATING if and only if stranded |
| CampaignRun.GeneratingIsStranded | outreach/marketing_agent.py:746-780 | every new row still GENERATING was claimed by a candidate whose last write was lost |
| CampaignRun.NothingIsLeftGenerating | outreach/marketing_agent.py:548-936 | without lost writes every row claimed in the run has left GENERATING |
| CampaignRun.AccountsBalanceExactly | outreach/marketing_agent.py:591-602 | the counters add up to the candidates examined if and only if no announcing callback raised; each that did counts its candidate twice |
| CampaignMeaning.CountsMean | outreach/marketing_agent.py:545-957 | each counter is the number of candidates with its verdict, its claim or its raised announcement |
| CampaignRun.DeliverySettles | outreach/marketing_agent.py:749-806 | the writes of a self-sending run, one after the other, amount to the row as it is announced |
| CampaignMeaning.SelfSendingMeans | outreach/marketing_agent.py:712-806 | row, verdict and count of a touch the run sends itself, for every answer, lost save and exception |
| CampaignMeaning.SavingMeans | outreach/marketing_agent.py:807-925 | row, verdict and count of a touch that is saved for review |
| CampaignMeaning.InterruptedMeans | outreach/marketing_agent.py:926-936 | an announcement that raises leaves a finished row alone and fails one still GENERATING |
| CampaignMeaning.BatchSizeMeans | outreach/marketing_agent.py:500-500 | the campaign's own limit, at most the platform's, at least one touch |
| SequenceService.CleanSteps | services/sequence_service.py:127-146 | a request is refused by its first bad step and for the reason the source gives, and is otherwise taken over exactly |
| SequenceService.SequenceService.ReplaceSequenceSteps | services/sequence_service.py:126-213 | the whole edit: who is refused, and for every old and new row what becomes of it |
| SequenceEdits.TwoPassesEdit | services/sequence_service.py:165-208 | the update-or-insert pass and the retire pass together make the edit |
| SequenceEdits.EditKeepsReferences | services/sequence_service.py:197-208 | a step row that a message refers to is still there with its campaign and number |
| SequenceEdits.ActiveAreRequested | services/sequence_service.py:167-206 | the campaign's active steps are exactly the requested active ones, with the requested content |
| EditMeaning.AcceptedMeans | services/sequence_service.py:127-134 | a request is accepted if and only if its numbers are positive and different and its delays at least a day |
| EditMeaning.EditMeans | services/sequence_service.py:167-208 | a requested row keeps its id and gets the requested columns, with their defaults; another is switched off if messages refer to it and deleted if not; other campaigns are untouched |
| EditMeaning.EditAdds | services/sequence_service.py:167-195 | afterwards there is exactly one row for every requested step and no new row for anything else |
| SequenceEdits.EditIsIdempotent | services/sequence_service.py:126-213 | repeating a request leaves the step table unchanged |
| SequenceEdits.EditsKeepReferences | services/sequence_service.py:158-208 | any run of edits of any campaigns keeps every referenced row's campaign and number |
| SequenceEdits.EditsKeepPosition | outreach/marketing_agent.py:97-133 | any run of edits, with any change of definitions and counts, leaves a lead whose last touch is linked where it is |
| SequenceEdits.EditMovesNobody | outreach/marketing_agent.py:97-133 | while references resolve, an edit of the step rows changes no lead's next step, linked or not |
| SequenceService.SequenceService.GenerateDueFollowupDrafts | services/sequence_service.py:263-335 | one draft for each chosen row and nothing else; generated + skipped = rows examined |
| SequenceService.SequenceService.ListUpcomingFollowups | services/sequence_service.py:380-416 | the listing of every row and the number due, with nothing changed |
| Followups.NextRowDecision | services/sequence_service.py:271-278 | in the table the loop has reached, a row is inserted if and only if it was due at the start and is the first of its key |
| Followups.PreviewIsGeneration | services/sequence_service.py:380-409 | the rows listed as due are exactly those a draft is inserted for, if and only if due rows have different keys |
| Followups.ListingAgrees | services/sequence_service.py:241-261 | for the rows of one query the listing and the generation agree |
| Followups.InsertKeepsDecisions | services/sequence_service.py:295-300 | an insert changes the decision about a row if and only if it is for the same key |
| Followups.GeneratingTwice | services/sequence_service.py:271-278 | generating again for the same rows at the same instant inserts nothing |
| FollowupMeaning.InsertedExactlyWhenUncovered | services/sequence_service.py:263-300 | the first row for a step gets a draft if and only if its delay is over or ignored and no message for the step is waiting for review, scheduled, being sent or sent |
| FollowupMeaning.ListingMeans | services/sequence_service.py:380-409 | when a listed row is due, at what time, and why it is not |
| FollowupMeaning.GeneratingAgainLater | services/sequence_service.py:271-278 | after a generation and any run of the draft service, a row whose draft still stands gets no second one at any later time |
| FollowupMeaning.EligibleMeans | services/sequence_service.py:223-261 | which memberships the query answers |
| OAuthState.RoundTrip | services/mailbox_oauth_service.py:633-639 | decoding the unpadded base64url of any byte string gives it back (sections 3.2 and 5 of RFC 4648) |
| OAuthState.RestoredPadding | services/mailbox_oauth_service.py:633-639 | the padding the decoder restores is the padding the encoder stripped |
| OAuthState.EncodingMeans | services/mailbox_oauth_service.py:633-634 | the encoding is the text's bits in groups of six, each written with its letter of the URL-safe alphabet, without padding |
| OAuthState.EncodedIsUrlSafe | services/mailbox_oauth_service.py:633-634 | no separator, padding, plus or slash occurs in an encoded byte string |
| OAuthState.SignedStateVerifies | services/mailbox_oauth_service.py:489-506 | a signed state is accepted with its payload until it expires and then refused as expired |
| OAuthState.AcceptedExactlyWhenSigned | services/mailbox_oauth_service.py:495-506 | a state is accepted if and only if it is a text, a dot and the text's signature, and decodes to an unexpired payload |
| RateLimit.RateLimiter.IsRateLimited | main.py:214-225 | the pruned bucket gives the verdict of the full history of accepted requests; health checks are never limited |
| RateLimit.WindowsHoldAtMostLimit | main.py:219-224 | every closed window of sixty seconds holds at most N accepted requests of a key |
| RateLimit.RejectionMeansFull | main.py:220-222 | a request is rejected if and only if exactly N were accepted in the last sixty seconds |
| RateLimit.RecentOfRecent | main.py:219-219 | pruning a bucket early never changes a later verdict |
| AccessMeaning.LimitedMeans | main.py:217-222 | a request is rejected if and only if at least N were accepted in the sixty seconds before it |
| AccessMeaning.ClientIpMeans | main.py:207-211 | the text before the first comma of the forwarded addresses, or the peer |
| WebhookDedup.Deduplicator.CleanupOldEvents | email_monitor/webhook_utils.py:26-38 | exactly the events older than an hour are forgotten |
| WebhookDedup.Deduplicator.IsDuplicateEvent | email_monitor/webhook_utils.py:41-58 | an event is a duplicate if and only if the full history holds an acceptance of it within the last hour; acceptances of one event are more than an hour apart |
| WebhookDedup.LookupIsSearch | email_monitor/webhook_utils.py:51-54 | looking up the cleaned table is searching the full history |
| WebhookDedup.AcceptingKeepsSpaced | email_monitor/webhook_utils.py:56-58 | letting an event through keeps acceptances of one event more than an hour apart |
| TenantCache.CacheIsTransparent | services/tenant_service.py:348-363 | in any run of the service's own reads and writes every answer is the uncached query's, for any clock and lifetime |
| TenantCache.StalenessIsBounded | services/tenant_service.py:177-196 | with other processes writing too, an answer is what the query gave now or at an asking stored less than the lifetime ago |
| TenantService.TenantService.GetMembership | services/tenant_service.py:348-363 | the answer equals the uncached query and the cache stays fresh |
| TenantService.TenantService.UpsertOrgUser | services/tenant_service.py:1249-1274 | permission is decided on the current tables, an unknown organization changes nothing, the write is the membership alone, and the cache is emptied |
| AccessMeaning.MayAdministerMeans | services/tenant_service.py:373-380 | system owners and the organization's own active administrators, nobody else |
| AccessMeaning.WrittenMembershipDecides | services/tenant_service.py:1249-1274 | a written membership decides whether its user is an administrator, and nobody else's permission changes |
| AccessMeaning.FoundIsServed | services/tenant_service.py:177-196 | a found membership is served until its lifetime is over; that there was none is asked again every time |
| TenantService.TenantService.CreateOrganization | services/tenant_service.py:1120-1149 | only system owners create; a taken slug changes nothing; otherwise the organization and its first administrator are added and the cache is emptied |
| TenantService.TenantService.UpdateOrganization | services/tenant_service.py:1152-1192 | administrators change name and time zone only, an unknown organization is an error, and a cached membership never shows the old name |

## Left out

- LifecycleRuns.LifecycleInvariant: for undisturbed runs; RowStaysOk has the exact condition for one message in any run.
- QueueRounds.QueueEmpties: for rounds that run one after the other; interleaved rounds are covered by Draining.QueueDrains.
- TouchRuns.OneUnresolvedTouch: not for pairs that a late result or a row recorded beside an unsent touch puts out of order, because the code lets both happen (MoveBreaksExactly); outbound rows without a status are excluded.
- MarketingAgent.MarketingAgent.ExecuteCampaign: leaves out callbacks that raise before the first claim of a candidate or inside the exception handler, because they end the run.
- The transport, mail servers, language models, tracing, routing, streaming and the frontend: a send is any answer, a generated text is any text.
- The unique index on first touches is modelled for claims; other writers it may reject are left to raise.
- The lead row that the approval and send queries join: it is there by the foreign key of email_messages.
- Row locks: a set of rows other transactions hold in ClaimDueScheduledDrafts; SchedulerRuns allows any choice of due rows, and whole rounds are taken without locks.
- Upper and lower case of statuses and channels: one value each, as the comparisons fold case; the one that does not looks for FAILED and REJECTED, which are stored in upper case, while `sent` of services/email_service.py:34 is the same as SENT.
- Touches created in the same second are ordered by id; the source leaves their order to the database.
- Text that does not decide anything: attachments, message bodies after cleaning, quick replies, events, audit rows, external message ids, the cutting of error texts at 1000 characters.
- Parsing of request texts: a schedule request is absent, malformed, or an instant; an unreadable stored time of a touch is not modelled.
- Dates outside the years 1 to 9999, where the original raises an overflow.
- Case folding and the pattern for one company name: `Subjects.Locale` holds a lower-casing and that test as parameters; `Folds` states what is needed of the first.
- Phone digits are the ASCII digits; the original also keeps other decimal digits.
- The option to stop future attempts when a draft is deleted, attachments of drafts, batch forms of approve and delete.
- Exact touch counts and skip progress after a linked touch: the code does not establish them.
- The selection and order of a run's candidate leads, and the status column of leads.
- Default steps that are written before a follow-up query when a campaign has none; the order by last contact, which decides only which rows a limit cuts off.
- Template rendering and the sender's identity: parameters of `Followups.Writer`.
- HMAC and JSON: functions of `OAuthState.Scheme`; a non-ASCII signature, which raises in the original, counts as a wrong one.
- The decoder of Python's binascii is modelled from its documented behaviour; only what it does to encoder output is used in a proof.
- E-mail look-up of the user in membership writes, slugs and time zone names: the callers pass the results.
- Caches of users, organization lists and organization choice: they follow the same pattern as the membership cache.
- Concurrent requests inside one process for the rate limiter, the deduplicator and the cache: their calls are taken one after the other.
- Plan management, metering, routing modes, analytics, mailbox settings and scripts lie outside the engine; what lead imports write to its tables is covered by the table edits of TouchRuns.

/** What the decisions and the sends of the draft service mean for a message: what its columns say afterwards,
    when the scheduler may claim it, and how long it waits for that. */
module DraftMeaning {
  import opened Common
  import opened Messages
  import opened Drafts
  import opened SchedulerRuns
  import Text

  /** The same message: whose it is, where it goes and when it was created and sent. */
  predicate SameMessage(m: Message, m': Message) {
    && m'.org == m.org && m'.lead == m.lead && m'.campaign == m.campaign && m'.stepId == m.stepId
    && m'.outbound == m.outbound && m'.channel == m.channel && m'.createdAt == m.createdAt && m'.sentAt == m.sentAt
  }

  predicate SameText(m: Message, m': Message) { m'.subject == m.subject && m'.body == m.body }

  /** Only row `id` differs, if any. */
  ghost predicate OnlyRow(t: Table, t': Table, id: int) {
    forall other :: other != id ==> (other in t' <==> other in t) && (other in t ==> t'[other] == t[other])
  }

  predicate ForOrg(m: Message, org: Option<int>) { org.None? || org == Some(m.org) }

  /** A draft nobody has decided about. */
  predicate InReview(t: Table, id: int, org: Option<int>) {
    id in t && t[id].status == Draft && t[id].approved == 0 && ForOrg(t[id], org)
  }

  /** Waiting for its time under an approval. */
  predicate Waits(t: Table, id: int, org: Option<int>) {
    id in t && t[id].outbound && t[id].status == Scheduled && t[id].approved == 1 && ForOrg(t[id], org)
  }

  // ---- Decisions -------------------------------------------------------------------------------------

  /** A draft in review is scheduled for `at`: the scheduler may claim it exactly from then on, with all its
      attempts; who approved it and when is recorded. Nothing else is scheduled. */
  lemma SchedulingMeans(cfg: Config, t: Table, id: int, actor: string, now: int, at: int, org: Option<int>)
    ensures var t' := ScheduleApproval(t, id, actor, now, at, org);
            if InReview(t, id, org) then
              && id in t' && OnlyRow(t, t', id) && SameMessage(t[id], t'[id]) && SameText(t[id], t'[id])
              && t'[id].approved == 1 && t'[id].approvedBy == Some(actor) && t'[id].approvedAt == Some(now)
              && t'[id].status == Scheduled && t'[id].scheduledAt == Some(at) && t'[id].attempts == 0
              && t'[id].claimedAt == t[id].claimedAt && t'[id].lastError.None?
              && (t[id].outbound && cfg.maxAttempts > 0 ==>
                    forall clock, other :: ForOrg(t[id], other) ==> (Due(cfg, t'[id], clock, other) <==> at <= clock))
            else t' == t
  {
  }

  lemma RejectingMeans(t: Table, id: int, actor: string, now: int, org: Option<int>)
    ensures var t' := Rejection(t, id, actor, now, org);
            if InReview(t, id, org) then
              && id in t' && OnlyRow(t, t', id) && SameMessage(t[id], t'[id]) && SameText(t[id], t'[id])
              && t'[id].approved == -1 && t'[id].approvedBy == Some(actor) && t'[id].approvedAt == Some(now)
              && t'[id].status == Rejected && t'[id].attempts == t[id].attempts && t'[id].lastError == t[id].lastError
            else t' == t
  {
  }

  /** Editing a waiting message moves its time and text and keeps its approval and its attempts. */
  lemma ReschedulingMeans(cfg: Config, t: Table, id: int, subject: string, body: string, at: int, org: Option<int>)
    ensures var t' := EditScheduled(t, id, subject, body, at, org);
            if Waits(t, id, org) then
              && id in t' && OnlyRow(t, t', id) && SameMessage(t[id], t'[id])
              && t'[id].subject == subject && t'[id].body == body
              && t'[id].status == Scheduled && t'[id].approved == 1 && t'[id].approvedBy == t[id].approvedBy
              && t'[id].approvedAt == t[id].approvedAt && t'[id].attempts == t[id].attempts
              && t'[id].scheduledAt == Some(at) && t'[id].lastError.None?
              && (t[id].attempts < cfg.maxAttempts ==>
                    forall clock, other :: ForOrg(t[id], other) ==> (Due(cfg, t'[id], clock, other) <==> at <= clock))
            else t' == t
  {
  }

  lemma ReturningMeans(cfg: Config, t: Table, id: int, org: Option<int>)
    ensures var t' := ReturnToReview(t, id, org);
            if Waits(t, id, org) then
              && OnlyRow(t, t', id) && InReview(t', id, org) && SameMessage(t[id], t'[id]) && SameText(t[id], t'[id])
              && t'[id].approvedBy.None? && t'[id].approvedAt.None? && t'[id].scheduledAt.None?
              && t'[id].attempts == t[id].attempts && t'[id].lastError.None?
              && forall clock, other :: !Due(cfg, t'[id], clock, other)
            else t' == t
  {
  }

  lemma EditingMeans(t: Table, id: int, subject: string, body: string, org: Option<int>)
    ensures var t' := EditDraft(t, id, subject, body, org);
            if InReview(t, id, org) && t[id].outbound then
              t' == t[id := t[id].(subject := subject, body := body)]
            else t' == t
  {
  }

  lemma DeletingMeans(t: Table, id: int, org: Option<int>)
    ensures var t' := DeleteDraft(t, id, org);
            if id in t && t[id].outbound && ForOrg(t[id], org) && (InReview(t, id, org) || t[id].status == Failed) then
              id !in t' && OnlyRow(t, t', id)
            else t' == t
  {
  }

  /** A message sent by hand is a draft in review on a channel the service cannot send on. */
  lemma MarkingMeans(t: Table, id: int, actor: string, now: int, org: int)
    ensures var t' := MarkSent(t, id, actor, now, org);
            if InReview(t, id, Some(org)) && (t[id].channel == "linkedin" || t[id].channel == "whatsapp") then
              && id in t' && OnlyRow(t, t', id) && SameText(t[id], t'[id])
              && t'[id].status == Sent && t'[id].approved == 1 && t'[id].sentAt == Some(now)
              && t'[id].approvedBy == Some(actor) && t'[id].approvedAt == Some(now) && t'[id].attempts == t[id].attempts
            else t' == t
  {
  }

  // ---- Sends -------------------------------------------------------------------------------------------

  /** The safety system was there and refused the content. */
  ghost predicate RefusedContent(error: string) {
    && (exists rest :: error == "Safety check failed:" + rest)
    && !exists before, after :: error == before + "Safety check system unavailable" + after
  }

  lemma RefusedContentIsBlock(error: string)
    ensures SafetyContentBlock(error) <==> RefusedContent(error)
  {
    if "Safety check failed:" <= error {
      assert error == "Safety check failed:" + error[20..];
    }
    if Text.Contains(error, "Safety check system unavailable") {
      var i :| 0 <= i <= |error| && Text.OccursAt(error, "Safety check system unavailable", i);
      assert error == error[..i] + "Safety check system unavailable" + error[i + 31..];
    }
    if before, after :| error == before + "Safety check system unavailable" + after {
      assert Text.OccursAt(error, "Safety check system unavailable", |before|);
    }
  }

  /** What `send_approved_draft` takes: an outbound message that is in review, waits, is claimed, or has no status,
      and has not been rejected. */
  predicate CanBeSent(t: Table, id: int, org: Option<int>) {
    && id in t && t[id].outbound && ForOrg(t[id], org)
    && (t[id].status == Draft || t[id].status == Scheduled || t[id].status == Sending || t[id].status == NoStatus)
    && (t[id].approved == 0 || t[id].approved == 1)
  }

  /** Before the transport is called one attempt is on record, and the subject as it will be sent. */
  lemma BeginningMeans(cfg: Config, t: Table, id: int, org: Option<int>)
    ensures var t' := BeginSend(cfg, t, id, org);
            if CanBeSent(t, id, org) then
              t' == t[id := t[id].(attempts := t[id].attempts + 1, subject := cfg.normalize(t[id].subject), lastError := None)]
            else t' == t
  {
  }

  /** A delivered message is SENT and approved, now; it keeps the approver it had. */
  lemma DeliveryMeans(cfg: Config, t: Table, id: int, org: Option<int>, actor: string, now: int)
    requires CanBeSent(t, id, org)
    ensures var t' := SendOne(cfg, t, id, org, actor, now, Delivered);
            && id in t' && OnlyRow(t, t', id) && t'[id].body == t[id].body
            && t'[id].status == Sent && t'[id].approved == 1 && t'[id].sentAt == Some(now)
            && t'[id].attempts == t[id].attempts + 1 && t'[id].subject == cfg.normalize(t[id].subject)
            && t'[id].approvedBy == (if t[id].approvedBy.Some? then t[id].approvedBy else Some(actor))
            && t'[id].approvedAt == (if t[id].approvedAt.Some? then t[id].approvedAt else Some(now))
            && t'[id].scheduledAt.None? && t'[id].claimedAt.None?
  {
  }

  /** What a send that is not delivered leaves. A queued message that was refused for its content has failed; one
      without attempts left goes back to review; any other waits again, and may be claimed exactly from the
      retry delay on. A message sent at once from review only keeps the error. */
  lemma FailureMeans(cfg: Config, t: Table, id: int, org: Option<int>, actor: string, now: int, error: string)
    requires CanBeSent(t, id, org)
    ensures var t' := SendOne(cfg, t, id, org, actor, now, NotDelivered(error));
            && id in t' && OnlyRow(t, t', id) && SameMessage(t[id], t'[id]) && t'[id].body == t[id].body
            && t'[id].attempts == t[id].attempts + 1 && t'[id].subject == cfg.normalize(t[id].subject)
            && (if t[id].status != Scheduled && t[id].status != Sending then
                  && t'[id].status == t[id].status && t'[id].approved == t[id].approved
                  && t'[id].approvedBy == t[id].approvedBy && t'[id].approvedAt == t[id].approvedAt
                  && t'[id].scheduledAt == t[id].scheduledAt && t'[id].claimedAt == t[id].claimedAt
                  && t'[id].lastError == Some(Provider(error))
                else if RefusedContent(error) then
                  && t'[id].status == Failed && t'[id].claimedAt.None? && t'[id].lastError == Some(Provider(error))
                else if t[id].attempts + 1 >= cfg.maxAttempts then
                  && InReview(t', id, org) && t'[id].claimedAt.None? && t'[id].scheduledAt.None?
                  && t'[id].approvedBy.None? && t'[id].approvedAt.None?
                  && t'[id].lastError == Some(PausedBy(t[id].attempts + 1, error))
                else
                  && t'[id].status == Scheduled && t'[id].approved == t[id].approved
                  && t'[id].approvedBy == t[id].approvedBy && t'[id].approvedAt == t[id].approvedAt
                  && t'[id].claimedAt.None? && t'[id].lastError == Some(Provider(error))
                  && (t[id].approved == 1 ==>
                        forall at, other :: ForOrg(t[id], other) ==> (Due(cfg, t'[id], at, other) <==> now + cfg.retryDelay <= at)))
  {
    RefusedContentIsBlock(error);
    hide SafetyContentBlock, RefusedContent;
  }

  lemma NothingToSend(cfg: Config, t: Table, id: int, org: Option<int>, actor: string, now: int, outcome: Outcome)
    requires !CanBeSent(t, id, org)
    ensures SendOne(cfg, t, id, org, actor, now, outcome) == t
  {
  }

  // ---- Claims and sweeps ---------------------------------------------------------------------------------

  /** What the scheduler may claim: an approved outbound message that waits, whose time has come, with an attempt left. */
  lemma DueMeans(cfg: Config, t: Table, id: int, now: int, org: Option<int>)
    requires id in t
    ensures Due(cfg, t[id], now, org)
            <==> Waits(t, id, org) && t[id].attempts < cfg.maxAttempts
                 && exists at :: t[id].scheduledAt == Some(at) && at <= now
  {
  }

  /** A claim changes the status, the claim time and the error only. */
  lemma ClaimingMeans(t: Table, ids: set<int>, now: int, id: int)
    requires id in t
    ensures id in ClaimRows(t, ids, now)
    ensures ClaimRows(t, ids, now)[id]
            == if id in ids then t[id].(status := Sending, claimedAt := Some(now), lastError := None) else t[id]
  {
  }

  /** The sweep returns queued, approved messages without attempts left to review, gives claims that are old enough
      back to the queue, and leaves everything else alone. */
  lemma SweepingMeans(cfg: Config, t: Table, cutoff: int, org: Option<int>, id: int)
    requires id in t
    ensures id in Sweep(cfg, t, cutoff, org)
    ensures var m, m' := t[id], Sweep(cfg, t, cutoff, org)[id];
            var mine := m.outbound && m.approved == 1 && ForOrg(m, org);
            if mine && (m.status == Scheduled || m.status == Sending) && m.attempts >= cfg.maxAttempts then
              && SameMessage(m, m') && SameText(m, m') && m'.attempts == m.attempts
              && m'.status == Draft && m'.approved == 0 && m'.approvedBy.None? && m'.approvedAt.None?
              && m'.scheduledAt.None? && m'.claimedAt.None?
              && m'.lastError == (if m.lastError.Some? then m.lastError else Some(Paused(cfg.maxAttempts)))
            else if mine && m.status == Sending && m.claimedAt.Some? && m.claimedAt.value <= cutoff then
              m' == m.(status := Scheduled, claimedAt := None,
                       lastError := if m.lastError.Some? then m.lastError else Some(ClaimExpired(cfg.claimTimeout)))
            else m' == m
  {
  }

  lemma BatchLimitMeans(limit: int)
    ensures 1 <= BatchLimit(limit) <= 200
    ensures 1 <= limit <= 200 ==> BatchLimit(limit) == limit
    ensures limit > 200 ==> BatchLimit(limit) == 200
    ensures limit < 1 ==> BatchLimit(limit) == 1
  {
  }

  // ---- How long a message waits -----------------------------------------------------------------------------

  /** The message is not in the queue before instant `at`: whenever it waits or is claimed, its time is then or later. */
  ghost predicate NotBefore(s: World, id: int, at: int) {
    id < s.nextId
    && (id in s.messages && (s.messages[id].status == Scheduled || s.messages[id].status == Sending) ==>
          exists time :: s.messages[id].scheduledAt == Some(time) && at <= time)
  }

  /** The step gives the message an earlier time: an approval, an edit, or a failure whose retry comes before. */
  predicate Hastens(cfg: Config, s: World, step: Step, id: int, at: int) {
    match step
    case Approve(other, _, time, _) => other == id && time < at
    case Reschedule(other, _, _, time, _) => other == id && time < at
    case End(w, outcome) =>
      && w in s.workers && Calling(s.workers[w]) && s.workers[w].todo[0] == id
      && outcome.NotDelivered? && s.clock + cfg.retryDelay < at
    case _ => false
  }

  lemma StepKeepsWaiting(cfg: Config, s: World, step: Step, id: int, at: int)
    requires Enabled(cfg, s, step) && NotBefore(s, id, at) && !Hastens(cfg, s, step, id, at)
    requires forall other :: other in s.messages ==> other < s.nextId
    ensures NotBefore(After(cfg, s, step), id, at)
    ensures step.StartBatch? && step.readAt < at ==> id !in step.picked
  {
  }

  /** Until its time, and as long as nothing gives it an earlier one, no batch takes the message. */
  lemma {:induction false} WaitsItsTime(cfg: Config, states: seq<World>, steps: seq<Step>, id: int, at: int, j: nat, k: nat)
    requires IsRun(cfg, states, steps) && Quiet(states[0]) && j <= k < |states| && NotBefore(states[j], id, at)
    requires forall i :: j <= i < k ==> !Hastens(cfg, states[i], steps[i], id, at)
    ensures NotBefore(states[k], id, at)
    decreases k
  {
    hide NotBefore, Hastens, Enabled, After, Quiet;
    if k > j {
      WaitsItsTime(cfg, states, steps, id, at, j, k - 1);
      RunIsFormed(cfg, states, steps, k - 1);
      assert Takes(cfg, states[k - 1], steps[k - 1], states[k]);
      StepKeepsWaiting(cfg, states[k - 1], steps[k - 1], id, at);
    }
  }

  /** A batch that reads the clock before the time of the message does not take it. */
  lemma BatchComesLater(cfg: Config, states: seq<World>, steps: seq<Step>, id: int, at: int, j: nat, k: nat)
    requires IsRun(cfg, states, steps) && Quiet(states[0]) && j <= k < |steps| && NotBefore(states[j], id, at)
    requires forall i :: j <= i < k ==> !Hastens(cfg, states[i], steps[i], id, at)
    requires steps[k].StartBatch? && steps[k].readAt < at
    ensures id !in steps[k].picked
  {
    WaitsItsTime(cfg, states, steps, id, at, j, k);
    RunIsFormed(cfg, states, steps, k);
    assert Takes(cfg, states[k], steps[k], states[k + 1]);
    StepKeepsWaiting(cfg, states[k], steps[k], id, at);
  }

  /** This step is a failure, reported by a scheduler worker, after which the message is to be tried again. */
  ghost predicate Retries(cfg: Config, s: World, step: Step, id: int) {
    && step.End? && step.w in s.workers && Calling(s.workers[step.w]) && s.workers[step.w].todo[0] == id
    && (s.workers[step.w].read == Some(Scheduled) || s.workers[step.w].read == Some(Sending))
    && step.outcome.NotDelivered? && !RefusedContent(step.outcome.error)
    && id in s.messages && s.messages[id].attempts < cfg.maxAttempts
  }

  /** After such a failure the message may be claimed exactly from the retry delay on. */
  lemma RetryIsDue(cfg: Config, s: World, step: Step, id: int, at: int, org: Option<int>)
    requires Enabled(cfg, s, step) && Retries(cfg, s, step, id)
    requires s.messages[id].outbound && s.messages[id].approved == 1 && ForOrg(s.messages[id], org)
    ensures id in After(cfg, s, step).messages
    ensures Due(cfg, After(cfg, s, step).messages[id], at, org) <==> s.clock + cfg.retryDelay <= at
  {
    RefusedContentIsBlock(step.outcome.error);
    hide SafetyContentBlock, RefusedContent;
  }

  /** Nothing but an approval or an edit hastens a retry: later failures only push it further out. */
  lemma {:induction false} ClockAdvances(cfg: Config, states: seq<World>, steps: seq<Step>, j: nat, k: nat)
    requires IsRun(cfg, states, steps) && j <= k < |states|
    ensures states[j].clock <= states[k].clock
    decreases k
  {
    hide Enabled;
    if k > j {
      ClockAdvances(cfg, states, steps, j, k - 1);
      assert Takes(cfg, states[k - 1], steps[k - 1], states[k]);
    }
  }

  /** A retry waits its delay: no batch that reads the clock before the delay is over takes the message, in any run
      in which it is not approved or edited for an earlier time. */
  lemma RetryWaits(cfg: Config, states: seq<World>, steps: seq<Step>, id: int, j: nat, k: nat)
    requires IsRun(cfg, states, steps) && Quiet(states[0]) && j < k < |steps|
    requires Retries(cfg, states[j], steps[j], id)
    requires forall i :: j < i < k && (steps[i].Approve? || steps[i].Reschedule?) && steps[i].id == id ==>
               steps[i].at >= states[j].clock + cfg.retryDelay
    requires steps[k].StartBatch? && steps[k].readAt < states[j].clock + cfg.retryDelay
    ensures id !in steps[k].picked
  {
    var at := states[j].clock + cfg.retryDelay;
    RunIsFormed(cfg, states, steps, j);
    assert Takes(cfg, states[j], steps[j], states[j + 1]);
    RetryIsNotBefore(cfg, states[j], steps[j], id);
    forall i | j + 1 <= i < k
      ensures !Hastens(cfg, states[i], steps[i], id, at)
    {
      ClockAdvances(cfg, states, steps, j, i);
    }
    BatchComesLater(cfg, states, steps, id, at, j + 1, k);
  }

  lemma RetryIsNotBefore(cfg: Config, s: World, step: Step, id: int)
    requires Enabled(cfg, s, step) && Retries(cfg, s, step, id) && Formed(s)
    ensures NotBefore(After(cfg, s, step), id, s.clock + cfg.retryDelay)
  {
    RefusedContentIsBlock(step.outcome.error);
    hide SafetyContentBlock, RefusedContent;
  }

  /** An approved message waits its time: no batch that reads the clock before the approved time takes it, in any run
      in which it gets no earlier time. */
  lemma ApprovalWaits(cfg: Config, states: seq<World>, steps: seq<Step>, id: int, j: nat, k: nat)
    requires IsRun(cfg, states, steps) && Quiet(states[0]) && j < k < |steps|
    requires steps[j].Approve? && steps[j].id == id && InReview(states[j].messages, id, steps[j].org)
    requires forall i :: j < i < k ==> !Hastens(cfg, states[i], steps[i], id, steps[j].at)
    requires steps[k].StartBatch? && steps[k].readAt < steps[j].at
    ensures id !in steps[k].picked
  {
    RunIsFormed(cfg, states, steps, j);
    assert Takes(cfg, states[j], steps[j], states[j + 1]);
    BatchComesLater(cfg, states, steps, id, steps[j].at, j + 1, k);
  }
}

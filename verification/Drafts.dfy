/** What each operation of services/draft_service.py does to one row and to the table. */
module Drafts {
  import opened Common
  import opened Messages
  import opened Text

  // ---- Human decisions -------------------------------------------------------------------

  /** The row `process_single_draft_approval` selects. */
  predicate Approvable(t: Table, id: int, org: Option<int>) {
    id in t && t[id].status == Draft && t[id].approved == 0 && Visible(t[id], org)
  }

  function ScheduledFor(m: Message, actor: string, now: int, at: int): Message {
    m.(approved := 1, status := Scheduled, approvedBy := Some(actor), approvedAt := Some(now),
       scheduledAt := Some(at), attempts := 0, lastError := None)
  }

  function RejectedBy(m: Message, actor: string, now: int): Message {
    m.(approved := -1, status := Rejected, approvedBy := Some(actor), approvedAt := Some(now))
  }

  function ScheduleApproval(t: Table, id: int, actor: string, now: int, at: int, org: Option<int>): Table {
    if Approvable(t, id, org) then t[id := ScheduledFor(t[id], actor, now, at)] else t
  }

  function Rejection(t: Table, id: int, actor: string, now: int, org: Option<int>): Table {
    if Approvable(t, id, org) then t[id := RejectedBy(t[id], actor, now)] else t
  }

  /** The row `update_scheduled_draft` and `return_scheduled_draft_to_review` select. */
  predicate Reschedulable(t: Table, id: int, org: Option<int>) {
    id in t && t[id].outbound && t[id].status == Scheduled && t[id].approved == 1 && Visible(t[id], org)
  }

  function EditScheduled(t: Table, id: int, subject: string, body: string, at: int, org: Option<int>): Table {
    if Reschedulable(t, id, org)
    then t[id := t[id].(subject := subject, body := body, scheduledAt := Some(at), lastError := None)]
    else t
  }

  function ReturnToReview(t: Table, id: int, org: Option<int>): Table {
    if Reschedulable(t, id, org)
    then t[id := t[id].(status := Draft, approved := 0, approvedBy := None, approvedAt := None,
                        scheduledAt := None, lastError := None)]
    else t
  }

  /** `_pending_draft_exists`. */
  predicate PendingDraft(t: Table, id: int, org: Option<int>) {
    id in t && t[id].status == Draft && t[id].approved == 0 && t[id].outbound && Visible(t[id], org)
  }

  function EditDraft(t: Table, id: int, subject: string, body: string, org: Option<int>): Table {
    if PendingDraft(t, id, org) then t[id := t[id].(subject := subject, body := body)] else t
  }

  predicate Deletable(t: Table, id: int, org: Option<int>) {
    && id in t && t[id].outbound && Visible(t[id], org)
    && ((t[id].status == Draft && t[id].approved == 0) || t[id].status == Failed)
  }

  function DeleteDraft(t: Table, id: int, org: Option<int>): Table {
    if Deletable(t, id, org) then t - {id} else t
  }

  /** `mark_draft_sent`: a WhatsApp or LinkedIn draft the salesperson sent by hand. */
  predicate ManuallySendable(t: Table, id: int, org: int) {
    Approvable(t, id, Some(org)) && t[id].channel in {"whatsapp", "linkedin"}
  }

  function MarkSent(t: Table, id: int, actor: string, now: int, org: int): Table {
    if ManuallySendable(t, id, org)
    then t[id := t[id].(status := Sent, approved := 1, approvedBy := Some(actor),
                        approvedAt := Some(now), sentAt := Some(now))]
    else t
  }

  // ---- One send --------------------------------------------------------------------------

  /** What the transport answered. */
  datatype Outcome = Delivered | NotDelivered(error: string)

  const UNAVAILABLE := "Safety check system unavailable"
  const BLOCKED := "Safety check failed:"

  predicate SafetySystemUnavailable(error: string) { Contains(error, UNAVAILABLE) }

  predicate SafetyContentBlock(error: string) {
    BLOCKED <= error && !SafetySystemUnavailable(error)
  }

  /** The row `send_approved_draft` selects. */
  predicate Sendable(t: Table, id: int, org: Option<int>) {
    && id in t && t[id].outbound && t[id].status in {Draft, Scheduled, Sending, NoStatus}
    && t[id].approved in {0, 1} && Visible(t[id], org)
  }

  /** The commit before the transport is called: one more attempt and the normalised subject. */
  function AttemptStarted(cfg: Config, m: Message): Message {
    m.(attempts := m.attempts + 1, lastError := None, subject := cfg.normalize(m.subject))
  }

  function BeginSend(cfg: Config, t: Table, id: int, org: Option<int>): Table {
    if Sendable(t, id, org) then t[id := AttemptStarted(cfg, t[id])] else t
  }

  /** Back to human review after the last automatic attempt. */
  function PausedRow(m: Message): Message {
    m.(status := Draft, approved := 0, approvedBy := None, approvedAt := None,
       scheduledAt := None, claimedAt := None)
  }

  /** The result written after the transport answered, for a row read in `readStatus`. */
  function AfterSend(cfg: Config, m: Message, readStatus: Status, actor: string, now: int, outcome: Outcome): Message {
    match outcome
    case Delivered =>
      m.(approved := 1, status := Sent, approvedBy := Coalesce(m.approvedBy, Some(actor)),
         approvedAt := Coalesce(m.approvedAt, Some(now)), sentAt := Some(now),
         scheduledAt := None, claimedAt := None)
    case NotDelivered(error) =>
      if Queued(readStatus) && SafetyContentBlock(error) then
        m.(lastError := Some(Provider(error)), status := Failed, claimedAt := None)
      else if Queued(readStatus) && m.attempts >= cfg.maxAttempts then
        PausedRow(m).(lastError := Some(PausedBy(m.attempts, error)))
      else if Queued(readStatus) then
        m.(lastError := Some(Provider(error)), status := Scheduled,
           scheduledAt := Some(now + cfg.retryDelay), claimedAt := None)
      else
        m.(lastError := Some(Provider(error)))
  }

  /** The write is by id only: nothing happens when the row is gone. */
  function EndSend(cfg: Config, t: Table, id: int, readStatus: Status, actor: string, now: int, outcome: Outcome): Table {
    if id in t then t[id := AfterSend(cfg, t[id], readStatus, actor, now, outcome)] else t
  }

  /** One uninterrupted send: attempt, transport, result. */
  function SendOne(cfg: Config, t: Table, id: int, org: Option<int>, actor: string, now: int, outcome: Outcome): Table {
    if Sendable(t, id, org)
    then EndSend(cfg, BeginSend(cfg, t, id, org), id, t[id].status, actor, now, outcome)
    else t
  }

  // ---- The scheduler's first transaction ---------------------------------------------------

  /** Out of attempts: the pause sweep takes it, whatever the age of its claim. */
  predicate Exhausted(cfg: Config, m: Message, org: Option<int>) {
    m.outbound && Queued(m.status) && m.approved == 1 && m.attempts >= cfg.maxAttempts && Visible(m, org)
  }

  /** A claim at least as old as the cutoff, with attempts left. */
  predicate Stale(cfg: Config, m: Message, cutoff: int, org: Option<int>) {
    && m.outbound && m.status == Sending && m.approved == 1 && m.attempts < cfg.maxAttempts
    && m.claimedAt.Some? && m.claimedAt.value <= cutoff && Visible(m, org)
  }

  /** The two sweeping updates on one row; no row matches both. */
  function Swept(cfg: Config, m: Message, cutoff: int, org: Option<int>): Message {
    if Exhausted(cfg, m, org) then
      PausedRow(m).(lastError := Coalesce(m.lastError, Some(Paused(cfg.maxAttempts))))
    else if Stale(cfg, m, cutoff, org) then
      m.(status := Scheduled, claimedAt := None,
         lastError := Coalesce(m.lastError, Some(ClaimExpired(cfg.claimTimeout))))
    else m
  }

  function Sweep(cfg: Config, t: Table, cutoff: int, org: Option<int>): Table {
    map id | id in t :: Swept(cfg, t[id], cutoff, org)
  }

  /** The rows the claim query may take at instant `now`. */
  predicate Due(cfg: Config, m: Message, now: int, org: Option<int>) {
    && m.outbound && m.status == Scheduled && m.approved == 1
    && m.scheduledAt.Some? && m.scheduledAt.value <= now
    && m.attempts < cfg.maxAttempts && Visible(m, org)
  }

  function ClaimedRow(m: Message, now: int): Message {
    m.(status := Sending, claimedAt := Some(now), lastError := None)
  }

  function ClaimRows(t: Table, ids: set<int>, now: int): Table {
    map id | id in t :: if id in ids then ClaimedRow(t[id], now) else t[id]
  }
}

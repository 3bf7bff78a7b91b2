/** The email_messages table: the columns the outbound engine reads and writes. */
module Messages {
  import opened Common

  /** The values of the status column; NoStatus is SQL NULL. */
  datatype Status = NoStatus | Draft | Scheduled | Sending | Sent | Rejected | Failed | Generating | Received

  /** What the last_error column records. */
  datatype ErrorNote =
    | Provider(text: string)
    | Paused(attempts: nat)
    | PausedBy(attempts: nat, text: string)
    | ClaimExpired(seconds: nat)
    | Skipped(text: string)

  /** One row. Instants are whole UTC seconds, which is the resolution of every stored text. */
  datatype Message = Message(
    org: int,
    lead: int,
    campaign: Option<int>,
    stepId: Option<int>,
    outbound: bool,
    channel: string,
    subject: string,
    body: string,
    status: Status,
    approved: int,
    approvedBy: Option<string>,
    approvedAt: Option<int>,
    scheduledAt: Option<int>,
    claimedAt: Option<int>,
    attempts: nat,
    sentAt: Option<int>,
    createdAt: int,
    lastError: Option<ErrorNote>)

  /** Rows by primary key. */
  type Table = map<int, Message>

  /** The scheduler's settings; `normalize` is the subject normalisation for the sending organization. */
  datatype Config = Config(
    maxAttempts: nat,
    claimTimeout: nat,
    retryDelay: nat,
    normalize: string -> string)

  /** The optional `AND organization_id = ?` of every query. */
  predicate Visible(m: Message, org: Option<int>) {
    org.None? || m.org == org.value
  }

  /** Waiting in the scheduled queue or claimed from it. */
  predicate Queued(status: Status) {
    status in {Scheduled, Sending}
  }

  /** A status no message leaves. */
  predicate Resolved(status: Status) {
    status in {Sent, Rejected, Failed}
  }

  /** The columns that say which touch of which lead a row is. */
  predicate SameTouch(m: Message, m': Message) {
    && m'.org == m.org && m'.lead == m.lead && m'.campaign == m.campaign
    && m'.stepId == m.stepId && m'.outbound == m.outbound && m'.createdAt == m.createdAt
  }

  /** The row invariant of the draft lifecycle. */
  ghost predicate RowOk(cfg: Config, m: Message) {
    && (Queued(m.status) ==> m.approved == 1 && m.approvedBy.Some? && m.approvedAt.Some? && m.scheduledAt.Some?)
    && (m.claimedAt.Some? <==> m.status == Sending)
    && (m.status == Scheduled ==> m.attempts < cfg.maxAttempts)
    && (m.status == Sending ==> m.attempts <= cfg.maxAttempts)
    && (m.status == Draft ==> m.approved == 0)
    && (m.status == Rejected ==> m.approved == -1)
  }

  ghost predicate TableOk(cfg: Config, t: Table) {
    forall id :: id in t ==> RowOk(cfg, t[id])
  }

  /** A move of an existing row: the same touch, and SENT, REJECTED and FAILED are absorbing. */
  ghost predicate RowSettles(m: Message, m': Message) {
    && SameTouch(m, m')
    && (Resolved(m.status) ==> m'.status == m.status)
    && (m.status == Generating ==> m' == m)
    && (m'.status in {Generating, NoStatus} ==> m.status == m'.status)
  }

  /** A change of the table made by the draft service: no row appears, every row settles, and
      only unapproved drafts and failed rows disappear. */
  ghost predicate Settles(t: Table, t': Table) {
    && (forall id :: id in t' ==> id in t && RowSettles(t[id], t'[id]))
    && (forall id :: id in t && id !in t' ==> t[id].status in {Draft, Failed})
  }
}

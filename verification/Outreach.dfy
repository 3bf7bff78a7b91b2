/** The sequence engine of outreach/marketing_agent.py: finding, skipping and reserving a lead's next step. */
module Outreach {
  import opened Common
  import opened Messages
  import opened Steps
  import Subjects

  const DAY := 86400

  datatype Lead = Lead(email: string, phone: string, linkedin: string, optOut: bool)

  /** A campaign_leads row. */
  datatype Member = Member(emailsSent: int, responded: bool, meetingBooked: bool)

  /** A campaign_sequences row, without its key. */
  datatype Definition = Definition(channel: string, delayDays: int)

  /** One campaign's pursuit of one lead. */
  datatype Pair = Pair(org: int, campaign: int, lead: int)

  /** The tables the engine reads. `defs` and `members` are keyed by campaign and step number, and by
      campaign and lead. */
  datatype Db = Db(
    messages: Table,
    nextId: int,
    leads: map<int, Lead>,
    members: map<(int, int), Member>,
    defs: map<(int, int), Definition>,
    steps: StepTable)

  // ---- A lead's history ----------------------------------------------------------------------

  predicate OfPair(m: Message, p: Pair) {
    m.outbound && m.org == p.org && m.campaign == Some(p.campaign) && m.lead == p.lead
  }

  /** The touches the engine counts. SQL's NOT IN also leaves out a NULL status. */
  predicate Counted(m: Message, p: Pair) {
    OfPair(m, p) && m.status !in {Failed, Rejected, NoStatus}
  }

  function Touches(t: Table, p: Pair): set<int> { set id | id in t && Counted(t[id], p) }

  /** ORDER BY created_at, ties by id. */
  predicate Earlier(t: Table, a: int, b: int)
    requires a in t && b in t
  {
    t[a].createdAt < t[b].createdAt || (t[a].createdAt == t[b].createdAt && a < b)
  }

  predicate IsLatest(t: Table, ids: set<int>, id: int)
    requires forall x :: x in ids ==> x in t
  {
    id in ids && forall x :: x in ids ==> x == id || Earlier(t, x, id)
  }

  lemma {:induction false} LatestExists(t: Table, ids: set<int>)
    requires ids != {} && forall x :: x in ids ==> x in t
    ensures exists id :: IsLatest(t, ids, id)
    decreases |ids|
  {
    if x :| x in ids {
      var rest := ids - {x};
      assert forall y :: y in ids ==> y == x || y in rest;
      if rest != {} {
        LatestExists(t, rest);
        var m :| IsLatest(t, rest, m);
        assert IsLatest(t, ids, if Earlier(t, m, x) then x else m);
      } else {
        assert IsLatest(t, ids, x);
      }
    } else {
      var none: set<int> := {};
      assert forall x :: x in ids <==> x in none;
    }
  }

  /** The last of the touches. */
  function Latest(t: Table, ids: set<int>): (id: int)
    requires ids != {} && forall x :: x in ids ==> x in t
    ensures IsLatest(t, ids, id)
  {
    LatestExists(t, ids);
    var id :| IsLatest(t, ids, id);
    id
  }

  /** The step number of the step row a message is linked to, 0 without one. */
  function LinkedNumber(db: Db, m: Message): int {
    if m.stepId.Some? && m.stepId.value in db.steps then db.steps[m.stepId.value].number else 0
  }

  function EmailsSent(db: Db, p: Pair): int {
    if (p.campaign, p.lead) in db.members then db.members[(p.campaign, p.lead)].emailsSent else 0
  }

  /** The numbers of the campaign's steps on a channel. */
  function ChannelNumbers(db: Db, campaign: int, channel: string): set<int> {
    set key | key in db.defs && key.0 == campaign && db.defs[key].channel == channel :: key.1
  }

  /** The first step on the channel of a message, 0 if there is none. */
  function InferredNumber(db: Db, p: Pair, channel: string): int {
    var numbers := ChannelNumbers(db, p.campaign, channel);
    if numbers == {} then 0 else Least(numbers)
  }

  function SentTouches(t: Table, p: Pair): set<int> { set id | id in t && Counted(t[id], p) && t[id].status == Sent }

  /** The step a lead is at after its last touch: the linked number if there is one, else the campaign's
      touch count, else the first step on the channel, else the number of sent touches. */
  function CurrentNumber(db: Db, p: Pair, last: Message): int {
    if LinkedNumber(db, last) != 0 then LinkedNumber(db, last)
    else if EmailsSent(db, p) != 0 then EmailsSent(db, p)
    else if InferredNumber(db, p, last.channel) != 0 then InferredNumber(db, p, last.channel)
    else |SentTouches(db.messages, p)|
  }

  /** The number of the step to take next. */
  function NextNumber(db: Db, p: Pair): int {
    var touches := Touches(db.messages, p);
    if touches == {} then (if EmailsSent(db, p) > 0 then EmailsSent(db, p) + 1 else 1)
    else CurrentNumber(db, p, db.messages[Latest(db.messages, touches)]) + 1
  }

  // ---- Choosing the next step ------------------------------------------------------------------

  datatype Code = LeadMissing | LeadNotFound | OptedOut | MeetingBooked | Responded | PendingTouch
    | SequenceExhausted | DelayNotPassed | NothingAfterSkipping | RolledBack

  datatype Candidate =
    | Take(number: int, channel: string, stepId: Option<int>)
    | Skip(number: int, channel: string, stepId: Option<int>)
    | Refuse(code: Code)

  function DigitCount(s: string): nat {
    if s == "" then 0 else (if '0' <= s[0] <= '9' then 1 else 0) + DigitCount(s[1..])
  }

  /** `_channel_prerequisite_error` finds nothing wrong. */
  predicate ChannelUsable(channel: string, lead: Lead) {
    if channel == "whatsapp" then DigitCount(lead.phone) >= 8
    else if channel == "linkedin" then Subjects.Strip(lead.linkedin) != ""
    else if channel == "email" then '@' in lead.email
    else true
  }

  /** The campaign's step row with this number, if any. */
  function LinkOf(steps: StepTable, campaign: int, number: int): Option<int> {
    var ids := set id | id in steps && steps[id].campaign == campaign && steps[id].number == number;
    if ids == {} then None else Some(Least(ids))
  }

  /** A step that can be visited: a defined one, or the email that stands in for an undefined first step. */
  predicate Defined(db: Db, p: Pair, number: int) { (p.campaign, number) in db.defs || number == 1 }

  function ChannelOf(db: Db, p: Pair, number: int): string {
    if (p.campaign, number) in db.defs then db.defs[(p.campaign, number)].channel else "email"
  }

  function StepIdOf(db: Db, p: Pair, number: int): Option<int> {
    if (p.campaign, number) in db.defs then LinkOf(db.steps, p.campaign, number) else None
  }

  predicate Usable(db: Db, p: Pair, number: int)
    requires p.lead in db.leads
  {
    ChannelUsable(ChannelOf(db, p, number), db.leads[p.lead])
  }

  /** When the last touch happened. */
  function LastTime(db: Db, p: Pair): Option<int> {
    var touches := Touches(db.messages, p);
    if touches == {} then None
    else
      var last := db.messages[Latest(db.messages, touches)];
      Coalesce(last.sentAt, Some(last.createdAt))
  }

  predicate DelayPassed(db: Db, p: Pair, number: int, now: int, ignoreDelay: bool) {
    || (p.campaign, number) !in db.defs
    || LastTime(db, p).None?
    || db.defs[(p.campaign, number)].delayDays <= 0
    || ignoreDelay
    || (now - LastTime(db, p).value) / DAY >= db.defs[(p.campaign, number)].delayDays
  }

  /** What keeps any step from being taken, checked in this order. */
  function Gate(db: Db, p: Pair): Option<Code> {
    if p.lead !in db.leads then Some(LeadNotFound)
    else if db.leads[p.lead].optOut then Some(OptedOut)
    else if (p.campaign, p.lead) in db.members && db.members[(p.campaign, p.lead)].meetingBooked then Some(MeetingBooked)
    else if (p.campaign, p.lead) in db.members && db.members[(p.campaign, p.lead)].responded then Some(Responded)
    else
      var touches := Touches(db.messages, p);
      if touches != {} && db.messages[Latest(db.messages, touches)].status != Sent then Some(PendingTouch) else None
  }

  /** `_find_next_sequence_step`. */
  function FindNext(db: Db, p: Pair, now: int, ignoreDelay: bool): Candidate {
    if Gate(db, p).Some? then Refuse(Gate(db, p).value)
    else
      var n := NextNumber(db, p);
      if !Defined(db, p, n) then Refuse(SequenceExhausted)
      else if !Usable(db, p, n) then Skip(n, ChannelOf(db, p, n), StepIdOf(db, p, n))
      else if !DelayPassed(db, p, n, now, ignoreDelay) then Refuse(DelayNotPassed)
      else Take(n, ChannelOf(db, p, n), StepIdOf(db, p, n))
  }

  // ---- Writing -------------------------------------------------------------------------------

  function NewRow(p: Pair, status: Status, stepId: Option<int>, channel: string, now: int, note: Option<ErrorNote>): Message {
    Message(p.org, p.lead, Some(p.campaign), stepId, true, channel, "", "", status, 0,
            None, None, None, None, 0, None, now, note)
  }

  function Insert(db: Db, m: Message): Db {
    db.(messages := db.messages[db.nextId := m], nextId := db.nextId + 1)
  }

  /** `UPDATE campaign_leads SET emails_sent = CASE WHEN emails_sent < n THEN n ELSE emails_sent END`. */
  function RaiseTouchCount(db: Db, p: Pair, number: int): Db {
    if (p.campaign, p.lead) in db.members then
      var member := db.members[(p.campaign, p.lead)];
      db.(members := db.members[(p.campaign, p.lead) := member.(emailsSent := Max(member.emailsSent, number))])
    else db
  }

  /** `_record_skipped_sequence_step`. */
  function RecordSkip(db: Db, p: Pair, step: Candidate, now: int): Db
    requires step.Skip?
  {
    RaiseTouchCount(Insert(db, NewRow(p, Failed, step.stepId, step.channel, now, Some(Skipped(step.channel)))), p, step.number)
  }

  datatype ClaimResult =
    | Claimed(messageId: int, number: int, channel: string, stepId: Option<int>, skipped: seq<int>)
    | NotClaimed(code: Code, skipped: seq<int>)

  const MAX_STEPS_PER_CLAIM: nat := 5

  /** The reservation loop with `fuel` visits left, after the steps in `skipped`. */
  function ClaimFrom(db: Db, p: Pair, now: int, ignoreDelay: bool, fuel: nat, skipped: seq<int>): (Db, ClaimResult)
    decreases fuel
  {
    if fuel == 0 then (db, NotClaimed(NothingAfterSkipping, skipped))
    else
      match FindNext(db, p, now, ignoreDelay)
      case Refuse(code) => (db, NotClaimed(code, skipped))
      case Skip(number, channel, stepId) =>
        ClaimFrom(RecordSkip(db, p, Skip(number, channel, stepId), now), p, now, ignoreDelay, fuel - 1, skipped + [number])
      case Take(number, channel, stepId) =>
        (Insert(db, NewRow(p, Generating, stepId, channel, now, None)),
         Claimed(db.nextId, number, channel, stepId, skipped))
  }

  /** A row the unique index on first touches covers. */
  predicate Indexed(m: Message, p: Pair) {
    OfPair(m, p) && m.stepId.None? && m.status in {Draft, Scheduled, Sending, Sent, Generating}
  }

  /** The index lets a pair have one covered row only. */
  predicate IndexRejects(t: Table, p: Pair, stepId: Option<int>) {
    stepId.None? && exists id :: id in t && Indexed(t[id], p)
  }

  /** `_claim_next_outreach_touch`: one transaction. A reservation the index rejects rolls the skips back too. */
  function Claim(db: Db, p: Pair, now: int, ignoreDelay: bool): (Db, ClaimResult) {
    var result := ClaimFrom(db, p, now, ignoreDelay, MAX_STEPS_PER_CLAIM, []);
    if result.1.Claimed? && IndexRejects(db.messages, p, result.1.stepId) then (db, NotClaimed(RolledBack, [])) else result
  }

  /** `_complete_initial_outreach_touch`, as the campaign run calls it: to SENT with approved = 1, or to
      DRAFT with approved = 0. */
  function CompletedRow(m: Message, sent: bool, subject: string, body: string, channel: string, now: int): Message {
    m.(subject := subject, body := body, status := if sent then Sent else Draft, approved := if sent then 1 else 0,
       sentAt := if sent then Some(now) else m.sentAt, lastError := None, channel := channel)
  }

  function Complete(t: Table, id: int, sent: bool, subject: string, body: string, channel: string, now: int): Table {
    if id in t then t[id := CompletedRow(t[id], sent, subject, body, channel, now)] else t
  }

  /** `_fail_initial_outreach_touch`: only a row still GENERATING is marked. */
  function Fail(t: Table, id: int, error: string): Table {
    if id in t && t[id].status == Generating
    then t[id := t[id].(status := Failed, lastError := Some(Provider(error)))]
    else t
  }

  /** `update_lead_touch` on the campaign's touch count. */
  function BumpTouchCount(db: Db, p: Pair): Db {
    var key := (p.campaign, p.lead);
    if key in db.members
    then db.(members := db.members[key := db.members[key].(emailsSent := db.members[key].emailsSent + 1)])
    else db.(members := db.members[key := Member(1, false, false)])
  }
}

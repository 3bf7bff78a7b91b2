/** The per-lead loop of a campaign run: what becomes of each candidate and of the touch reserved for it. */
module CampaignRun {
  import opened Common
  import opened Messages
  import opened Steps
  import opened Outreach
  import opened StepSearch
  import opened TouchPositions

  // ---- What the surroundings decide for one candidate ------------------------------------------

  /** What the drafting and reviewing agents produced. */
  datatype Writing = WritingRaises(error: string) | Written(subject: string, body: string, channel: string)

  datatype SendAnswer = Delivered | NotDelivered(error: string) | SendRaises(error: string)

  /** What happens between saving the touch and counting it: nothing; the lead's touch count is not written;
      an exception before, or after, the touch count. */
  datatype Aftermath = Fine | CountLost | RaisesFirst(error: string) | RaisesLast(error: string)

  /** `failLost` and `refailLost` say that a failure write does not reach the database; `callback` is the error
      of the candidate's own last callback, if that raises. */
  datatype Fortune = Fortune(
    claimedAt: int,
    claimRaises: bool,
    writing: Writing,
    answer: SendAnswer,
    savedAt: int,
    saveRaises: bool,
    aftermath: Aftermath,
    failLost: bool,
    callback: Option<string>,
    refailLost: bool)

  /** A run of one campaign over its candidate leads. */
  datatype Run = Run(
    org: int,
    campaign: int,
    autoApprove: bool,
    ignoreDelay: bool,
    leads: seq<Option<int>>,
    fortune: nat -> Fortune)

  // ---- The reservation ---------------------------------------------------------------------------

  /** Python's falsy lead id. */
  predicate NoLead(lead: Option<int>) { lead.None? || lead.value == 0 }

  function PairOf(run: Run, lead: Option<int>): Pair {
    Pair(run.org, run.campaign, if lead.Some? then lead.value else 0)
  }

  /** The claim for one candidate; a claim that raises is rolled back. */
  function Reserve(run: Run, db: Db, lead: Option<int>, f: Fortune): (Db, ClaimResult) {
    if NoLead(lead) then (db, NotClaimed(LeadMissing, []))
    else if f.claimRaises then (db, NotClaimed(RolledBack, []))
    else Claim(db, PairOf(run, lead), f.claimedAt, run.ignoreDelay)
  }

  // ---- What the run reports and what it leaves behind -----------------------------------------------

  datatype Verdict = WasSkipped | WasSent | WasDrafted | WasFailed

  predicate SendsItself(run: Run, channel: string) { run.autoApprove && channel == "email" }

  /** The touch was written and, where the run sends it itself, delivered. */
  predicate ReadyToSave(run: Run, channel: string, f: Fortune) {
    f.writing.Written? && (SendsItself(run, channel) ==> f.answer.Delivered?)
  }

  predicate Saved(run: Run, channel: string, f: Fortune) {
    ReadyToSave(run, channel, f) && !f.saveRaises
  }

  /** A lost save is an exception for a draft, but is only logged for a delivered email. */
  predicate Succeeds(run: Run, channel: string, f: Fortune) {
    && ReadyToSave(run, channel, f)
    && (SendsItself(run, channel) || !f.saveRaises)
    && (f.aftermath.Fine? || f.aftermath.CountLost?)
  }

  function Judge(run: Run, r: ClaimResult, f: Fortune): Verdict {
    if r.NotClaimed? then WasSkipped
    else if !Succeeds(run, r.channel, f) then WasFailed
    else if SendsItself(run, r.channel) then WasSent
    else WasDrafted
  }

  /** No write about the reserved row has reached the database when the candidate is announced. */
  predicate Unwritten(run: Run, channel: string, f: Fortune) {
    !Saved(run, channel, f) && (f.failLost || Succeeds(run, channel, f))
  }

  /** The candidate is announced by a callback of its own: skipped, sent, not delivered, drafted or not saved.
      Any other exception goes to the handler at once. */
  predicate Announces(run: Run, r: ClaimResult, f: Fortune) {
    || r.NotClaimed?
    || (f.writing.Written?
        && (SendsItself(run, r.channel) ==> f.answer.NotDelivered? || Succeeds(run, r.channel, f)))
  }

  /** The announcement raises: the handler records a failure on top of the verdict. */
  predicate Interrupted(run: Run, r: ClaimResult, f: Fortune) { f.callback.Some? && Announces(run, r, f) }

  /** The handler's own write reaches a row that is still GENERATING. */
  predicate Rewritten(run: Run, r: ClaimResult, f: Fortune) {
    r.Claimed? && Unwritten(run, r.channel, f) && Interrupted(run, r, f) && !f.refailLost
  }

  /** No write about the reserved row reached the database: it is still GENERATING when the run moves on. */
  predicate Stranded(run: Run, r: ClaimResult, f: Fortune) {
    r.Claimed? && Unwritten(run, r.channel, f) && !Rewritten(run, r, f)
  }

  /** The error a failing candidate is recorded with. */
  function ErrorOf(run: Run, channel: string, f: Fortune): string {
    if f.writing.WritingRaises? then f.writing.error
    else if SendsItself(run, channel) && f.answer.NotDelivered? then (if f.answer.error == "" then DELIVERY_FAILED else f.answer.error)
    else if SendsItself(run, channel) && f.answer.SendRaises? then f.answer.error
    else if !SendsItself(run, channel) && f.saveRaises then SAVE_FAILED
    else if f.aftermath.RaisesFirst? || f.aftermath.RaisesLast? then f.aftermath.error
    else ""
  }

  const DELIVERY_FAILED := "Email delivery failed"
  const SAVE_FAILED := "database error"

  /** The reserved row when the candidate is announced. */
  function WrittenRow(run: Run, m: Message, f: Fortune): Message {
    if Saved(run, m.channel, f) then
      CompletedRow(m, SendsItself(run, m.channel), f.writing.subject, f.writing.body,
                   if SendsItself(run, m.channel) then "email" else f.writing.channel, f.savedAt)
    else if Unwritten(run, m.channel, f) then m
    else m.(status := Failed, lastError := Some(Provider(ErrorOf(run, m.channel, f))))
  }

  /** What becomes of the reserved row. */
  function FinalRow(run: Run, m: Message, r: ClaimResult, f: Fortune): Message {
    if Rewritten(run, r, f) then m.(status := Failed, lastError := Some(Provider(f.callback.value)))
    else WrittenRow(run, m, f)
  }

  /** The campaign's touch count goes up once the touch was saved, or sent though not saved. */
  predicate CountsTouch(run: Run, channel: string, f: Fortune) {
    && ReadyToSave(run, channel, f)
    && (SendsItself(run, channel) || !f.saveRaises)
    && (f.aftermath.Fine? || f.aftermath.RaisesLast?)
  }

  /** The database when a claimed candidate is announced. */
  function Settled(run: Run, db: Db, p: Pair, r: ClaimResult, f: Fortune): Db
    requires r.Claimed?
  {
    var written := if r.messageId in db.messages
                   then db.(messages := db.messages[r.messageId := WrittenRow(run, db.messages[r.messageId], f)])
                   else db;
    if CountsTouch(run, r.channel, f) then BumpTouchCount(written, p) else written
  }

  // ---- The writes one by one -----------------------------------------------------------------------

  /** Sending the touch, saving it, counting it, up to the first exception. */
  function DeliverWrites(db: Db, p: Pair, id: int, f: Fortune): Db
    requires f.writing.Written?
  {
    var saved := if f.answer.Delivered? && !f.saveRaises
                 then db.(messages := Complete(db.messages, id, true, f.writing.subject, f.writing.body, "email", f.savedAt))
                 else db;
    if f.answer.Delivered? then CountWrites(saved, p, f.aftermath) else saved
  }

  /** Saving the touch for review and counting it, up to the first exception. */
  function SaveWrites(db: Db, p: Pair, id: int, f: Fortune): Db
    requires f.writing.Written?
  {
    if f.saveRaises then db
    else
      var draft := Complete(db.messages, id, false, f.writing.subject, f.writing.body, f.writing.channel, f.savedAt);
      CountWrites(db.(messages := draft), p, f.aftermath)
  }

  function CountWrites(db: Db, p: Pair, aftermath: Aftermath): Db {
    if aftermath.Fine? || aftermath.RaisesLast? then BumpTouchCount(db, p) else db
  }

  function FailWrites(db: Db, id: int, error: string, lost: bool): Db {
    if lost then db else db.(messages := Fail(db.messages, id, error))
  }

  /** The row a claim has just inserted. */
  predicate IsReserved(db: Db, r: ClaimResult) {
    r.Claimed? && r.messageId in db.messages && db.messages[r.messageId].status == Generating
    && db.messages[r.messageId].channel == r.channel
  }

  /** The writes of a run that sends the touch itself, and of the exception handler after them, settle it. */
  lemma DeliverySettles(run: Run, db: Db, p: Pair, r: ClaimResult, f: Fortune)
    requires IsReserved(db, r) && f.writing.Written? && SendsItself(run, r.channel)
    ensures var after := DeliverWrites(db, p, r.messageId, f);
            Settled(run, db, p, r, f)
            == if Succeeds(run, r.channel, f) then after else FailWrites(after, r.messageId, ErrorOf(run, r.channel, f), f.failLost)
  {
    var t, id, error := db.messages, r.messageId, ErrorOf(run, r.channel, f);
    assert t[id := t[id]] == t;
  }

  lemma SavingSettles(run: Run, db: Db, p: Pair, r: ClaimResult, f: Fortune)
    requires IsReserved(db, r) && f.writing.Written? && !SendsItself(run, r.channel)
    ensures var after := SaveWrites(db, p, r.messageId, f);
            Settled(run, db, p, r, f)
            == if Succeeds(run, r.channel, f) then after else FailWrites(after, r.messageId, ErrorOf(run, r.channel, f), f.failLost)
  {
    var t, id := db.messages, r.messageId;
    assert t[id := t[id]] == t;
  }

  lemma FailingSettles(run: Run, db: Db, p: Pair, r: ClaimResult, f: Fortune)
    requires IsReserved(db, r) && f.writing.WritingRaises?
    ensures Settled(run, db, p, r, f) == FailWrites(db, r.messageId, f.writing.error, f.failLost)
  {
    var t, id := db.messages, r.messageId;
    assert t[id := t[id]] == t;
  }

  /** The handler after an announcement that raised. */
  function Interrupt(run: Run, db: Db, r: ClaimResult, f: Fortune): Db {
    if Interrupted(run, r, f) && r.Claimed? then FailWrites(db, r.messageId, f.callback.value, f.refailLost) else db
  }

  /** The database after one candidate. */
  function Examine(run: Run, db: Db, lead: Option<int>, f: Fortune): Db {
    var result := Reserve(run, db, lead, f);
    var settled := if result.1.Claimed? then Settled(run, result.0, PairOf(run, lead), result.1, f) else result.0;
    Interrupt(run, settled, result.1, f)
  }

  /** The database after the first `k` candidates. */
  ghost function DbAfter(run: Run, db: Db, k: nat): Db
    requires k <= |run.leads|
  {
    if k == 0 then db else Examine(run, DbAfter(run, db, k - 1), run.leads[k - 1], run.fortune(k - 1))
  }

  /** The claim made for candidate `k`. */
  ghost function ClaimAt(run: Run, db: Db, k: nat): ClaimResult
    requires k < |run.leads|
  {
    Reserve(run, DbAfter(run, db, k), run.leads[k], run.fortune(k)).1
  }

  ghost function VerdictAt(run: Run, db: Db, k: nat): Verdict
    requires k < |run.leads|
  {
    Judge(run, ClaimAt(run, db, k), run.fortune(k))
  }

  /** How many of the first `k` candidates got this verdict. */
  ghost function Count(run: Run, db: Db, v: Verdict, k: nat): nat
    requires k <= |run.leads|
  {
    if k == 0 then 0 else Count(run, db, v, k - 1) + if VerdictAt(run, db, k - 1) == v then 1 else 0
  }

  ghost function ClaimCount(run: Run, db: Db, k: nat): nat
    requires k <= |run.leads|
  {
    if k == 0 then 0 else ClaimCount(run, db, k - 1) + if ClaimAt(run, db, k - 1).Claimed? then 1 else 0
  }

  /** How many of the first `k` candidates were announced by a callback that raised. */
  ghost function Interruptions(run: Run, db: Db, k: nat): nat
    requires k <= |run.leads|
  {
    if k == 0 then 0
    else Interruptions(run, db, k - 1) + if Interrupted(run, ClaimAt(run, db, k - 1), run.fortune(k - 1)) then 1 else 0
  }

  /** The counters of a run after the first `k` candidates. */
  datatype Tally = Tally(skipped: nat, sent: nat, drafted: nat, failed: nat, processed: nat, claimed: nat)

  ghost predicate Tallies(run: Run, db: Db, k: nat, tally: Tally)
    requires k <= |run.leads|
  {
    && tally.skipped == Count(run, db, WasSkipped, k) && tally.sent == Count(run, db, WasSent, k)
    && tally.drafted == Count(run, db, WasDrafted, k)
    && tally.failed == Count(run, db, WasFailed, k) + Interruptions(run, db, k)
    && tally.processed == tally.sent + tally.drafted && tally.claimed == ClaimCount(run, db, k)
  }

  /** One more candidate. */
  function Count1(tally: Tally, verdict: Verdict): Tally {
    match verdict
    case WasSkipped => tally.(skipped := tally.skipped + 1)
    case WasSent => tally.(claimed := tally.claimed + 1, sent := tally.sent + 1, processed := tally.processed + 1)
    case WasDrafted => tally.(claimed := tally.claimed + 1, drafted := tally.drafted + 1, processed := tally.processed + 1)
    case WasFailed => tally.(claimed := tally.claimed + 1, failed := tally.failed + 1)
  }

  function CountInterruption(tally: Tally, interrupted: bool): Tally {
    if interrupted then tally.(failed := tally.failed + 1) else tally
  }

  lemma OneMoreTallied(run: Run, db: Db, k: nat, tally: Tally)
    requires k < |run.leads| && Tallies(run, db, k, tally)
    ensures Tallies(run, db, k + 1, CountInterruption(
      Count1(tally, VerdictAt(run, db, k)), Interrupted(run, ClaimAt(run, db, k), run.fortune(k))))
  {
    hide Judge, ClaimAt, Interrupted;
    SkippedIffNotClaimed(run, ClaimAt(run, db, k), run.fortune(k));
    var verdict := VerdictAt(run, db, k);
    assert verdict == WasSkipped <==> ClaimAt(run, db, k).NotClaimed? by {
      assert verdict == Judge(run, ClaimAt(run, db, k), run.fortune(k));
    }
  }

  // ---- The accounts --------------------------------------------------------------------------------

  lemma SkippedIffNotClaimed(run: Run, r: ClaimResult, f: Fortune)
    ensures Judge(run, r, f) == WasSkipped <==> r.NotClaimed?
  {
  }

  /** Every candidate examined gets exactly one verdict, and every claim is sent, drafted or failed. */
  lemma {:induction false} VerdictsAddUp(run: Run, db: Db, k: nat)
    requires k <= |run.leads|
    ensures Count(run, db, WasSkipped, k) + Count(run, db, WasSent, k) + Count(run, db, WasDrafted, k) + Count(run, db, WasFailed, k) == k
    ensures Count(run, db, WasSent, k) + Count(run, db, WasDrafted, k) + Count(run, db, WasFailed, k) == ClaimCount(run, db, k)
  {
    hide Judge, Reserve;
    if k > 0 {
      VerdictsAddUp(run, db, k - 1);
      SkippedIffNotClaimed(run, ClaimAt(run, db, k - 1), run.fortune(k - 1));
    }
  }

  /** The counters add up to the candidates examined if and only if no announcement raised; every one that did
      counts its candidate twice. */
  lemma {:induction false} AccountsBalanceExactly(run: Run, db: Db, k: nat, tally: Tally)
    requires k <= |run.leads| && Tallies(run, db, k, tally)
    ensures tally.skipped + tally.sent + tally.drafted + tally.failed == k + Interruptions(run, db, k)
    ensures Interruptions(run, db, k) == 0
            <==> forall j :: 0 <= j < k ==> !Interrupted(run, ClaimAt(run, db, j), run.fortune(j))
  {
    VerdictsAddUp(run, db, k);
    NoInterruptions(run, db, k);
  }

  lemma {:induction false} NoInterruptions(run: Run, db: Db, k: nat)
    requires k <= |run.leads|
    ensures Interruptions(run, db, k) == 0
            <==> forall j :: 0 <= j < k ==> !Interrupted(run, ClaimAt(run, db, j), run.fortune(j))
  {
    hide ClaimAt, Interrupted;
    if k > 0 {
      NoInterruptions(run, db, k - 1);
    }
  }

  /** The ids given out below `from` are as they were. */
  ghost predicate KeepsRows(db: Db, db': Db, from: int) {
    forall id :: id in db.messages && id < from ==> id in db'.messages && db'.messages[id] == db.messages[id]
  }

  /** What a reservation adds: failed skip rows and at most the reserved row, under new ids. */
  lemma ReserveFacts(run: Run, db: Db, lead: Option<int>, f: Fortune)
    requires WellFormed(db)
    ensures var db', r := Reserve(run, db, lead, f).0, Reserve(run, db, lead, f).1;
            && WellFormed(db') && db.nextId <= db'.nextId && KeepsRows(db, db', db.nextId)
            && (r.Claimed? ==>
                  && db.nextId <= r.messageId && r.messageId in db'.messages
                  && db'.messages[r.messageId] == NewRow(PairOf(run, lead), Generating, r.stepId, r.channel, f.claimedAt, None))
            && NewRowsFail(db, db', r)
  {
    hide Counted, FindNext, SameHistory, NewRow, PairOf, Claim;
    var p := PairOf(run, lead);
    if !NoLead(lead) && !f.claimRaises {
      ClaimFacts(db, p, f.claimedAt, run.ignoreDelay);
    }
  }

  ghost predicate NewRowsFail(db: Db, db': Db, r: ClaimResult) {
    forall id :: id in db'.messages && id !in db.messages ==>
      id >= db.nextId && (db'.messages[id].status == Failed || (r.Claimed? && id == r.messageId))
  }

  lemma ClaimFacts(db: Db, p: Pair, now: int, ignoreDelay: bool)
    requires WellFormed(db)
    ensures var db', r := Claim(db, p, now, ignoreDelay).0, Claim(db, p, now, ignoreDelay).1;
            && WellFormed(db') && db.nextId <= db'.nextId && KeepsRows(db, db', db.nextId)
            && (r.Claimed? ==>
                  && db.nextId <= r.messageId && r.messageId in db'.messages
                  && db'.messages[r.messageId] == NewRow(p, Generating, r.stepId, r.channel, now, None))
            && NewRowsFail(db, db', r)
  {
    hide Counted, FindNext, SameHistory, NewRow;
    var _ := ClaimShape(db, p, now, ignoreDelay);
  }

  /** Settling a reserved row changes that row and the touch counts only. */
  lemma SettledFacts(run: Run, db: Db, mid: Db, p: Pair, r: ClaimResult, f: Fortune)
    requires r.Claimed? && WellFormed(mid) && db.nextId <= mid.nextId && KeepsRows(db, mid, db.nextId)
    requires db.nextId <= r.messageId && r.messageId in mid.messages && NewRowsFail(db, mid, r)
    ensures var db' := Settled(run, mid, p, r, f);
            && WellFormed(db') && db.nextId <= db'.nextId && KeepsRows(db, db', db.nextId)
            && r.messageId in db'.messages && db'.messages[r.messageId] == WrittenRow(run, mid.messages[r.messageId], f)
            && NewRowsFail(db, db', r)
  {
    hide WrittenRow, CountsTouch, WellFormed, KeepsRows, NewRowsFail;
    var row := WrittenRow(run, mid.messages[r.messageId], f);
    var written := mid.(messages := mid.messages[r.messageId := row]);
    WritingFacts(db, mid, r, row);
    BumpingFacts(written, p);
  }

  lemma WritingFacts(db: Db, mid: Db, r: ClaimResult, row: Message)
    requires r.Claimed? && WellFormed(mid) && KeepsRows(db, mid, db.nextId)
    requires db.nextId <= r.messageId && r.messageId in mid.messages && NewRowsFail(db, mid, r)
    ensures var written := mid.(messages := mid.messages[r.messageId := row]);
            WellFormed(written) && KeepsRows(db, written, db.nextId) && NewRowsFail(db, written, r)
  {
  }

  lemma BumpingFacts(db: Db, p: Pair)
    requires WellFormed(db)
    ensures var db' := BumpTouchCount(db, p);
            && WellFormed(db') && db'.messages == db.messages && db'.nextId == db.nextId
            && (forall x: Db :: KeepsRows(x, db, x.nextId) ==> KeepsRows(x, db', x.nextId))
            && (forall x: Db, r :: NewRowsFail(x, db, r) ==> NewRowsFail(x, db', r))
  {
  }

  lemma InterruptFacts(run: Run, db: Db, mid: Db, r: ClaimResult, f: Fortune, m: Message)
    requires r.Claimed? && WellFormed(mid) && KeepsRows(db, mid, db.nextId) && NewRowsFail(db, mid, r)
    requires db.nextId <= r.messageId && r.messageId in mid.messages && mid.messages[r.messageId] == WrittenRow(run, m, f)
    requires m.status == Generating && m.channel == r.channel
    ensures var db' := Interrupt(run, mid, r, f);
            && WellFormed(db') && db'.nextId == mid.nextId && KeepsRows(db, db', db.nextId) && NewRowsFail(db, db', r)
            && r.messageId in db'.messages && db'.messages[r.messageId] == FinalRow(run, m, r, f)
  {
    hide Saved, Unwritten, Announces, WellFormed, KeepsRows, NewRowsFail, CompletedRow;
    var row := FinalRow(run, m, r, f);
    WrittenStatus(run, m, f);
    WritingFacts(db, mid, r, row);
    assert mid.messages[r.messageId := mid.messages[r.messageId]] == mid.messages;
  }

  lemma WrittenStatus(run: Run, m: Message, f: Fortune)
    requires m.status == Generating
    ensures WrittenRow(run, m, f).status == Generating <==> Unwritten(run, m.channel, f)
    ensures Unwritten(run, m.channel, f) ==> WrittenRow(run, m, f) == m
  {
  }

  lemma ExamineFacts(run: Run, db: Db, lead: Option<int>, f: Fortune)
    requires WellFormed(db)
    ensures var db', r := Examine(run, db, lead, f), Reserve(run, db, lead, f).1;
            && WellFormed(db') && db.nextId <= db'.nextId && KeepsRows(db, db', db.nextId)
            && (r.Claimed? ==>
                  && db.nextId <= r.messageId && r.messageId in db'.messages
                  && db'.messages[r.messageId]
                     == FinalRow(run, NewRow(PairOf(run, lead), Generating, r.stepId, r.channel, f.claimedAt, None), r, f))
            && NewRowsFail(db, db', r)
  {
    hide FinalRow, WrittenRow, PairOf, Reserve, Settled, WellFormed, KeepsRows, NewRowsFail, FailWrites, Announces;
    ReserveFacts(run, db, lead, f);
    var result := Reserve(run, db, lead, f);
    var r, p := result.1, PairOf(run, lead);
    if r.Claimed? {
      SettledFacts(run, db, result.0, p, r, f);
      InterruptFacts(run, db, Settled(run, result.0, p, r, f), r, f, NewRow(p, Generating, r.stepId, r.channel, f.claimedAt, None));
    }
  }

  lemma {:induction false} DbAfterIsWellFormed(run: Run, db: Db, k: nat)
    requires k <= |run.leads| && WellFormed(db)
    ensures WellFormed(DbAfter(run, db, k)) && db.nextId <= DbAfter(run, db, k).nextId
  {
    hide WellFormed;
    if k > 0 {
      DbAfterIsWellFormed(run, db, k - 1);
      ExamineFacts(run, DbAfter(run, db, k - 1), run.leads[k - 1], run.fortune(k - 1));
    }
  }

  /** Later candidates leave alone every row that was there before them. */
  lemma {:induction false} RowsStay(run: Run, db: Db, j: nat, k: nat)
    requires j <= k <= |run.leads| && WellFormed(db)
    ensures DbAfter(run, db, j).nextId <= DbAfter(run, db, k).nextId
    ensures KeepsRows(DbAfter(run, db, j), DbAfter(run, db, k), DbAfter(run, db, j).nextId)
    decreases k
  {
    hide WellFormed;
    if k > j {
      RowsStay(run, db, j, k - 1);
      DbAfterIsWellFormed(run, db, k - 1);
      ExamineFacts(run, DbAfter(run, db, k - 1), run.leads[k - 1], run.fortune(k - 1));
    }
  }

  /** Every row claimed in a run ends as its own candidate's fortune says, whatever comes after; in
      particular it is still GENERATING exactly when it is stranded. */
  lemma ClaimedRowEnds(run: Run, db: Db, j: nat, k: nat)
    requires j < k <= |run.leads| && WellFormed(db) && ClaimAt(run, db, j).Claimed?
    ensures var r, f, t := ClaimAt(run, db, j), run.fortune(j), DbAfter(run, db, k).messages;
            && r.messageId in t
            && t[r.messageId] == FinalRow(run, NewRow(PairOf(run, run.leads[j]), Generating, r.stepId, r.channel, f.claimedAt, None), r, f)
            && (t[r.messageId].status == Generating <==> Stranded(run, r, f))
            && (VerdictAt(run, db, j) == WasDrafted ==> t[r.messageId].status == Draft)
            && (VerdictAt(run, db, j) == WasSent && !f.saveRaises ==> t[r.messageId].status == Sent)
  {
    hide WellFormed, FinalRow, NewRow, PairOf, Reserve, Examine, Judge, Stranded;
    DbAfterIsWellFormed(run, db, j);
    ExamineFacts(run, DbAfter(run, db, j), run.leads[j], run.fortune(j));
    RowsStay(run, db, j + 1, k);
    DbAfterIsWellFormed(run, db, j + 1);
    var r := ClaimAt(run, db, j);
    BelowNextId(DbAfter(run, db, j + 1), r.messageId);
    FinalStatus(run, PairOf(run, run.leads[j]), r, run.fortune(j));
  }

  lemma FinalStatus(run: Run, p: Pair, r: ClaimResult, f: Fortune)
    requires r.Claimed?
    ensures var m := FinalRow(run, NewRow(p, Generating, r.stepId, r.channel, f.claimedAt, None), r, f);
            && (m.status == Generating <==> Stranded(run, r, f))
            && (Judge(run, r, f) == WasDrafted ==> m.status == Draft)
            && (Judge(run, r, f) == WasSent && !f.saveRaises ==> m.status == Sent)
  {
  }

  lemma StrandedOnlyByLostWrites(run: Run, r: ClaimResult, f: Fortune)
    requires Stranded(run, r, f)
    ensures f.saveRaises || f.failLost
  {
  }

  /** Where a run's row that is still GENERATING comes from: a stranded claim. */
  lemma {:induction false} GeneratingIsStranded(run: Run, db: Db, k: nat, id: int) returns (j: nat)
    requires k <= |run.leads| && WellFormed(db)
    requires id in DbAfter(run, db, k).messages && DbAfter(run, db, k).messages[id].status == Generating && id !in db.messages
    ensures j < k && ClaimAt(run, db, j).Claimed? && ClaimAt(run, db, j).messageId == id
    ensures Stranded(run, ClaimAt(run, db, j), run.fortune(j))
    ensures run.fortune(j).saveRaises || run.fortune(j).failLost
    decreases k
  {
    hide WellFormed, Reserve, Examine, FinalRow;
    if k == 0 {
      assert false;
    } else {
      DbAfterIsWellFormed(run, db, k - 1);
      ExamineFacts(run, DbAfter(run, db, k - 1), run.leads[k - 1], run.fortune(k - 1));
      if id in DbAfter(run, db, k - 1).messages {
        BelowNextId(DbAfter(run, db, k - 1), id);
        j := GeneratingIsStranded(run, db, k - 1, id);
      } else {
        j := k - 1;
        ClaimedRowEnds(run, db, j, k);
        StrandedOnlyByLostWrites(run, ClaimAt(run, db, j), run.fortune(j));
      }
    }
  }

  lemma BelowNextId(db: Db, id: int)
    requires WellFormed(db) && id in db.messages
    ensures id < db.nextId
  {
  }

  /** Without lost database writes every row claimed in the run has left GENERATING. */
  lemma NothingIsLeftGenerating(run: Run, db: Db, k: nat)
    requires k <= |run.leads| && WellFormed(db)
    requires forall j: nat :: j < k ==> !run.fortune(j).saveRaises && !run.fortune(j).failLost
    ensures forall id :: id in DbAfter(run, db, k).messages && id !in db.messages ==>
              DbAfter(run, db, k).messages[id].status != Generating
  {
    forall id | id in DbAfter(run, db, k).messages && id !in db.messages
      ensures DbAfter(run, db, k).messages[id].status != Generating
    {
      if DbAfter(run, db, k).messages[id].status == Generating {
        var j := GeneratingIsStranded(run, db, k, id);
      }
    }
  }
}

/** outreach/marketing_agent.py over one in-memory database: the methods change rows in place and are
    specified by the functions of Outreach and CampaignRun. */
module MarketingAgent {
  import opened Common
  import opened Messages
  import opened Outreach
  import opened StepSearch
  import opened CampaignRun

  datatype Report = Report(
    processed: nat, sent: nat, drafted: nat, skipped: nat, failed: nat,
    batchLimitReached: bool, batchSize: nat, candidates: nat, unprocessed: nat)

  /** A campaign without a limit of its own takes the platform's; at least one touch per run. */
  function BatchSize(requested: Option<int>, limit: int): nat {
    Max(1, Min(if requested.None? || requested.value == 0 then limit else requested.value, limit))
  }

  class MarketingAgent {
    var db: Db

    constructor (db: Db)
      ensures this.db == db
    {
      this.db := db;
    }

    method RecordSkippedSequenceStep(p: Pair, step: Candidate, now: int)
      requires step.Skip?
      modifies this
      ensures db == RecordSkip(old(db), p, step, now)
    {
      var row := NewRow(p, Failed, step.stepId, step.channel, now, Some(Skipped(step.channel)));
      db := db.(messages := db.messages[db.nextId := row], nextId := db.nextId + 1);
      var key := (p.campaign, p.lead);
      if key in db.members {
        var member := db.members[key];
        if member.emailsSent < step.number {
          member := member.(emailsSent := step.number);
        }
        db := db.(members := db.members[key := member]);
      }
    }

    /** One transaction; when it raises, or the unique index rejects the reservation, it is rolled back. */
    method ClaimNextOutreachTouch(org: int, campaign: int, lead: Option<int>, now: int, ignoreDelay: bool, raises: bool)
      returns (r: ClaimResult)
      requires WellFormed(db)
      modifies this
      ensures NoLead(lead) ==> db == old(db) && r == NotClaimed(LeadMissing, [])
      ensures !NoLead(lead) && raises ==> db == old(db) && r == NotClaimed(RolledBack, [])
      ensures !NoLead(lead) && !raises ==> (db, r) == Claim(old(db), Pair(org, campaign, lead.value), now, ignoreDelay)
    {
      hide FindNext, RecordSkip, NewRow, WellFormed, SameHistory, IndexRejects;
      if NoLead(lead) {
        return NotClaimed(LeadMissing, []);
      }
      if raises {
        return NotClaimed(RolledBack, []);
      }
      var p := Pair(org, campaign, lead.value);
      var start := db;
      var skipped: seq<int> := [];
      SameHistoryAtStart(db, p);
      for visit := 0 to MAX_STEPS_PER_CLAIM
        invariant WellFormed(db) && SameHistory(start, db, p)
        invariant ClaimFrom(start, p, now, ignoreDelay, MAX_STEPS_PER_CLAIM, [])
                  == ClaimFrom(db, p, now, ignoreDelay, MAX_STEPS_PER_CLAIM - visit, skipped)
      {
        var candidate := FindNext(db, p, now, ignoreDelay);
        match candidate {
          case Refuse(code) =>
            return NotClaimed(code, skipped);
          case Skip(number, _, _) =>
            SkipKeepsHistory(start, db, p, candidate, now);
            RecordSkippedSequenceStep(p, candidate, now);
            skipped := skipped + [number];
          case Take(number, channel, stepId) =>
            SameHistorySameIndex(start, db, p, stepId);
            if IndexRejects(db.messages, p, stepId) {
              db := start;
              return NotClaimed(RolledBack, []);
            }
            var id := db.nextId;
            var row := NewRow(p, Generating, stepId, channel, now, None);
            db := db.(messages := db.messages[id := row], nextId := id + 1);
            return Claimed(id, number, channel, stepId, skipped);
        }
      }
      return NotClaimed(NothingAfterSkipping, skipped);
    }

    method CompleteInitialOutreachTouch(id: int, sent: bool, subject: string, body: string, channel: string, now: int)
      modifies this
      ensures db == old(db).(messages := Complete(old(db).messages, id, sent, subject, body, channel, now))
    {
      if id in db.messages {
        var row := db.messages[id].(subject := subject, body := body, channel := channel, lastError := None);
        if sent {
          row := row.(status := Sent, approved := 1, sentAt := Some(now));
        } else {
          row := row.(status := Draft, approved := 0);
        }
        db := db.(messages := db.messages[id := row]);
      }
    }

    /** Swallows its own database errors. */
    method FailInitialOutreachTouch(id: int, error: string, lost: bool)
      modifies this
      ensures db == FailWrites(old(db), id, error, lost)
    {
      if !lost && id in db.messages && db.messages[id].status == Generating {
        db := db.(messages := db.messages[id := db.messages[id].(status := Failed, lastError := Some(Provider(error)))]);
      }
    }

    method UpdateLeadTouch(p: Pair)
      modifies this
      ensures db == BumpTouchCount(old(db), p)
    {
      var key := (p.campaign, p.lead);
      if key in db.members {
        var member := db.members[key];
        db := db.(members := db.members[key := member.(emailsSent := member.emailsSent + 1)]);
      } else {
        db := db.(members := db.members[key := Member(1, false, false)]);
      }
    }

    /** The branch of a run that sends the touch itself. `ok` says that it counts as sent. */
    method DeliverTouch(p: Pair, id: int, f: Fortune) returns (ok: bool, error: string)
      requires f.writing.Written?
      modifies this
      ensures ok <==> f.answer.Delivered? && (f.aftermath.Fine? || f.aftermath.CountLost?)
      ensures !ok && f.answer.Delivered? ==> error == f.aftermath.error
      ensures !ok && !f.answer.Delivered? ==>
                error == if f.answer.NotDelivered? && f.answer.error == "" then DELIVERY_FAILED else f.answer.error
      ensures db == DeliverWrites(old(db), p, id, f)
    {
      match f.answer {
        case NotDelivered(reason) =>
          return false, if reason == "" then DELIVERY_FAILED else reason;
        case SendRaises(reason) =>
          return false, reason;
        case Delivered =>
      }
      if !f.saveRaises {
        CompleteInitialOutreachTouch(id, true, f.writing.subject, f.writing.body, "email", f.savedAt);
      }
      ok, error := CountTouch(p, f.aftermath);
    }

    /** The branch that saves the touch for review. */
    method SaveDraft(p: Pair, id: int, f: Fortune) returns (ok: bool, error: string)
      requires f.writing.Written?
      modifies this
      ensures ok <==> !f.saveRaises && (f.aftermath.Fine? || f.aftermath.CountLost?)
      ensures !ok ==> error == if f.saveRaises then SAVE_FAILED else f.aftermath.error
      ensures db == SaveWrites(old(db), p, id, f)
    {
      if f.saveRaises {
        return false, SAVE_FAILED;
      }
      CompleteInitialOutreachTouch(id, false, f.writing.subject, f.writing.body, f.writing.channel, f.savedAt);
      ok, error := CountTouch(p, f.aftermath);
    }

    method CountTouch(p: Pair, aftermath: Aftermath) returns (ok: bool, error: string)
      modifies this
      ensures ok <==> aftermath.Fine? || aftermath.CountLost?
      ensures !ok ==> error == aftermath.error
      ensures db == CountWrites(old(db), p, aftermath)
    {
      match aftermath {
        case RaisesFirst(reason) => return false, reason;
        case CountLost => return true, "";
        case Fine =>
          UpdateLeadTouch(p);
          return true, "";
        case RaisesLast(reason) =>
          UpdateLeadTouch(p);
          return false, reason;
      }
    }

    /** Write, send or save the reserved touch; any exception is recorded on the row. */
    method SettleTouch(run: Run, p: Pair, r: ClaimResult, f: Fortune) returns (ok: bool)
      requires IsReserved(db, r)
      modifies this
      ensures db == Settled(run, old(db), p, r, f)
      ensures ok == Succeeds(run, r.channel, f)
    {
      hide Settled, DeliverWrites, SaveWrites, FailWrites;
      var error: string;
      if f.writing.WritingRaises? {
        FailingSettles(run, db, p, r, f);
        ok, error := false, f.writing.error;
      } else if run.autoApprove && r.channel == "email" {
        DeliverySettles(run, db, p, r, f);
        ok, error := DeliverTouch(p, r.messageId, f);
      } else {
        SavingSettles(run, db, p, r, f);
        ok, error := SaveDraft(p, r.messageId, f);
      }
      if !ok {
        FailInitialOutreachTouch(r.messageId, error, f.failLost);
      }
    }

    /** One candidate of a run. `interrupted` says that its announcement raised and was counted as a failure. */
    method ProcessLead(run: Run, lead: Option<int>, f: Fortune) returns (verdict: Verdict, interrupted: bool)
      requires WellFormed(db)
      modifies this
      ensures db == Examine(run, old(db), lead, f)
      ensures verdict == Judge(run, Reserve(run, old(db), lead, f).1, f)
      ensures interrupted == Interrupted(run, Reserve(run, old(db), lead, f).1, f)
    {
      hide WellFormed, Settled, Claim, KeepsRows, NewRowsFail, Succeeds;
      ReserveFacts(run, db, lead, f);
      var r := ClaimNextOutreachTouch(run.org, run.campaign, lead, f.claimedAt, run.ignoreDelay, f.claimRaises);
      assert (db, r) == Reserve(run, old(db), lead, f);
      interrupted := f.callback.Some? && Announces(run, r, f);
      if r.NotClaimed? {
        verdict := WasSkipped;
        return;
      }
      var ok := SettleTouch(run, PairOf(run, lead), r, f);
      verdict := if !ok then WasFailed else if run.autoApprove && r.channel == "email" then WasSent else WasDrafted;
      if interrupted {
        FailInitialOutreachTouch(r.messageId, f.callback.value, f.refailLost);
      }
    }

    /** The loop over the candidates. It stops before a candidate when the batch is full. */
    method ExecuteCampaign(run: Run, requested: Option<int>, limit: int) returns (report: Report)
      requires WellFormed(db)
      modifies this
      ensures report.batchSize == BatchSize(requested, limit) && report.candidates == |run.leads|
      ensures report.unprocessed <= |run.leads|
      ensures var examined := |run.leads| - report.unprocessed;
              && db == DbAfter(run, old(db), examined)
              && report.skipped == Count(run, old(db), WasSkipped, examined)
              && report.sent == Count(run, old(db), WasSent, examined)
              && report.drafted == Count(run, old(db), WasDrafted, examined)
              && report.failed == Count(run, old(db), WasFailed, examined) + Interruptions(run, old(db), examined)
              && report.processed == report.sent + report.drafted
              && examined + Interruptions(run, old(db), examined)
                 == report.skipped + report.sent + report.drafted + report.failed
              && ClaimCount(run, old(db), examined) <= report.batchSize
              && ClaimCount(run, old(db), examined) + Interruptions(run, old(db), examined)
                 == report.sent + report.drafted + report.failed
              && (report.batchLimitReached <==> examined < |run.leads|)
              && (report.batchLimitReached ==> ClaimCount(run, old(db), examined) == report.batchSize)
    {
      hide WellFormed, Reserve, Examine, Judge, Tallies, Interrupted;
      var batch := BatchSize(requested, limit);
      var tally := Tally(0, 0, 0, 0, 0, 0);
      var reached := false;
      var index := 0;
      NothingTallied(run, db);
      while index < |run.leads| && !reached
        invariant 0 <= index <= |run.leads|
        invariant WellFormed(old(db)) && db == DbAfter(run, old(db), index)
        invariant Tallies(run, old(db), index, tally) && tally.claimed <= batch
        invariant reached ==> tally.claimed == batch && index < |run.leads|
        decreases |run.leads| - index, !reached
      {
        if tally.claimed >= batch {
          reached := true;
        } else {
          DbAfterIsWellFormed(run, old(db), index);
          OneMoreTallied(run, old(db), index, tally);
          var verdict, interrupted := ProcessLead(run, run.leads[index], run.fortune(index));
          match verdict {
            case WasSkipped => tally := tally.(skipped := tally.skipped + 1);
            case WasSent => tally := tally.(claimed := tally.claimed + 1, sent := tally.sent + 1, processed := tally.processed + 1);
            case WasDrafted => tally := tally.(claimed := tally.claimed + 1, drafted := tally.drafted + 1, processed := tally.processed + 1);
            case WasFailed => tally := tally.(claimed := tally.claimed + 1, failed := tally.failed + 1);
          }
          if interrupted {
            tally := tally.(failed := tally.failed + 1);
          }
          index := index + 1;
        }
      }
      VerdictsAddUp(run, old(db), index);
      TalliesCount(run, old(db), index, tally);
      report := Report(tally.processed, tally.sent, tally.drafted, tally.skipped, tally.failed, reached, batch, |run.leads|, |run.leads| - index);
    }
  }

  lemma NothingTallied(run: Run, db: Db)
    ensures Tallies(run, db, 0, Tally(0, 0, 0, 0, 0, 0))
  {
  }

  lemma TalliesCount(run: Run, db: Db, k: nat, tally: Tally)
    requires k <= |run.leads| && Tallies(run, db, k, tally)
    ensures tally.skipped == Count(run, db, WasSkipped, k) && tally.sent == Count(run, db, WasSent, k)
    ensures tally.drafted == Count(run, db, WasDrafted, k)
    ensures tally.failed == Count(run, db, WasFailed, k) + Interruptions(run, db, k)
    ensures tally.processed == tally.sent + tally.drafted && tally.claimed == ClaimCount(run, db, k)
  {
  }

  lemma SameHistoryAtStart(db: Db, p: Pair)
    ensures SameHistory(db, db, p)
  {
  }

  lemma SkipKeepsHistory(start: Db, db: Db, p: Pair, step: Candidate, now: int)
    requires WellFormed(db) && SameHistory(start, db, p) && step.Skip?
    ensures WellFormed(RecordSkip(db, p, step, now)) && SameHistory(start, RecordSkip(db, p, step, now), p)
  {
    RecordSkipFacts(db, p, step, now);
  }
}

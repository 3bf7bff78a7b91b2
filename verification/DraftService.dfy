/** services/draft_service.py over one in-memory table: the methods change rows in place and are
    specified by the functions of Drafts, ClaimSelection and QueueRounds. */
module DraftService {
  import opened Common
  import opened Messages
  import opened Drafts
  import opened ClaimSelection
  import opened QueueRounds
  import SchedulerRuns
  import Subjects
  import IsoTime

  /** The `scheduled_send_at` argument: absent or blank, not a time, or an instant in microseconds. */
  datatype ScheduleRequest = NotRequested | Malformed | At(instant: int)

  datatype Reply = NotFound | PermissionDenied | Invalid | ApprovedScheduled(at: int) | Refused | ApprovedSent
    | SendFailed(error: string) | Updated | Returned | Deleted | Raised

  function Seconds(instant: int): int { instant / IsoTime.MICROS }

  class DraftService {
    const cfg: Config
    var messages: Table

    constructor (cfg: Config, messages: Table)
      ensures this.cfg == cfg && this.messages == messages
    {
      this.cfg := cfg;
      this.messages := messages;
    }

    /** One send without interference. The row is read, the attempt is committed, the transport answers,
        and the result is written by id. */
    method SendApprovedDraft(id: int, actor: string, org: Option<int>, answer: Outcome, now: int) returns (reply: Reply)
      modifies this
      ensures messages == SendOne(cfg, old(messages), id, org, actor, now, answer)
      ensures reply == if !Sendable(old(messages), id, org) then NotFound
                       else if answer.Delivered? then ApprovedSent else SendFailed(answer.error)
    {
      if !Sendable(messages, id, org) {
        return NotFound;
      }
      var read := messages[id].status;
      var subject := cfg.normalize(messages[id].subject);
      messages := messages[id := messages[id].(attempts := messages[id].attempts + 1, lastError := None)];
      messages := messages[id := messages[id].(subject := subject)];
      var row := messages[id];
      match answer {
        case Delivered =>
          messages := messages[id := row.(
            approved := 1, status := Sent, approvedBy := Coalesce(row.approvedBy, Some(actor)),
            approvedAt := Coalesce(row.approvedAt, Some(now)), sentAt := Some(now),
            scheduledAt := None, claimedAt := None)];
          return ApprovedSent;
        case NotDelivered(error) =>
          var scheduled := Queued(read);
          if scheduled && SafetyContentBlock(error) {
            messages := messages[id := row.(lastError := Some(Provider(error)), status := Failed, claimedAt := None)];
          } else if scheduled && row.attempts >= cfg.maxAttempts {
            messages := messages[id := row.(
              lastError := Some(PausedBy(row.attempts, error)), status := Draft, approved := 0, approvedBy := None,
              approvedAt := None, scheduledAt := None, claimedAt := None)];
          } else if scheduled {
            messages := messages[id := row.(
              lastError := Some(Provider(error)), status := Scheduled,
              scheduledAt := Some(now + cfg.retryDelay), claimedAt := None)];
          } else {
            messages := messages[id := row.(lastError := Some(Provider(error)))];
          }
          return SendFailed(error);
      }
    }

    /** Approve or reject one draft; `now` is in microseconds. */
    method ProcessSingleDraftApproval(
        id: int, approved: bool, actor: string, schedule: ScheduleRequest, org: Option<int>, answer: Outcome, now: int)
      returns (reply: Reply)
      modifies this
      ensures !Approvable(old(messages), id, org) ==> reply == NotFound && messages == old(messages)
      ensures Approvable(old(messages), id, org) && !approved ==>
                reply == Refused && messages == Rejection(old(messages), id, actor, Seconds(now), org)
      ensures Approvable(old(messages), id, org) && approved && schedule.NotRequested? ==>
                && messages == SendOne(cfg, old(messages), id, org, actor, Seconds(now), answer)
                && reply == (if !Sendable(old(messages), id, org) then NotFound
                             else if answer.Delivered? then ApprovedSent else SendFailed(answer.error))
      ensures Approvable(old(messages), id, org) && approved && schedule.At? ==>
                if Seconds(schedule.instant) * IsoTime.MICROS > now then
                  && reply == ApprovedScheduled(Seconds(schedule.instant))
                  && messages == ScheduleApproval(old(messages), id, actor, Seconds(now), Seconds(schedule.instant), org)
                else reply == Invalid && messages == old(messages)
      ensures Approvable(old(messages), id, org) && approved && schedule.Malformed? ==>
                reply == Invalid && messages == old(messages)
    {
      if !Approvable(messages, id, org) {
        return NotFound;
      }
      var row := messages[id];
      if approved {
        match schedule {
          case Malformed => return Invalid;
          case At(instant) =>
            var at := Seconds(instant);
            if at * IsoTime.MICROS <= now {
              return Invalid;
            }
            messages := messages[id := row.(
              approved := 1, status := Scheduled, approvedBy := Some(actor), approvedAt := Some(Seconds(now)),
              scheduledAt := Some(at), attempts := 0, lastError := None)];
            return ApprovedScheduled(at);
          case NotRequested =>
            reply := SendApprovedDraft(id, actor, org, answer, Seconds(now));
            return;
        }
      }
      messages := messages[id := row.(
        approved := -1, status := Rejected, approvedBy := Some(actor), approvedAt := Some(Seconds(now)))];
      return Refused;
    }

    /** Edit an approved scheduled email. A malformed time is an exception in the original. */
    method UpdateScheduledDraft(
        id: int, subject: string, body: string, schedule: ScheduleRequest, actor: string, org: Option<int>)
      returns (reply: Reply)
      modifies this
      ensures reply == if actor == "" then PermissionDenied
                       else if schedule.Malformed? then Raised
                       else if Subjects.Strip(subject) == "" || Subjects.Strip(body) == "" || schedule.NotRequested? then Invalid
                       else if !Reschedulable(old(messages), id, org) then NotFound
                       else Updated
      ensures messages == if reply == Updated
                          then EditScheduled(old(messages), id, Subjects.Strip(subject), Subjects.Strip(body), Seconds(schedule.instant), org)
                          else old(messages)
    {
      if actor == "" {
        return PermissionDenied;
      }
      var newSubject, newBody := Subjects.Strip(subject), Subjects.Strip(body);
      match schedule {
        case Malformed => return Raised;
        case NotRequested => return Invalid;
        case At(instant) =>
          if newSubject == "" || newBody == "" {
            return Invalid;
          }
          if !Reschedulable(messages, id, org) {
            return NotFound;
          }
          messages := messages[id := messages[id].(
            subject := newSubject, body := newBody, scheduledAt := Some(Seconds(instant)), lastError := None)];
          return Updated;
      }
    }

    /** A scheduled draft goes back to pending review. At no instant can the scheduler claim it, or a sweep touch it,
        until it is scheduled anew; its text and its attempts stay, and no other row changes. */
    method ReturnScheduledDraftToReview(id: int, actor: string, org: Option<int>) returns (reply: Reply)
      modifies this
      ensures messages == if actor == "" then old(messages) else ReturnToReview(old(messages), id, org)
      ensures reply != Returned ==> messages == old(messages)
      ensures reply == Returned ==>
                && id in old(messages) && id in messages && messages == old(messages)[id := messages[id]]
                && PendingDraft(messages, id, org) && Approvable(messages, id, org)
                && messages[id].subject == old(messages)[id].subject && messages[id].body == old(messages)[id].body
                && messages[id].attempts == old(messages)[id].attempts && SameTouch(old(messages)[id], messages[id])
                && (forall now, cutoff, other ::
                      !Due(cfg, Swept(cfg, messages[id], cutoff, other), now, other) && Swept(cfg, messages[id], cutoff, other) == messages[id])
      ensures reply == if actor == "" then PermissionDenied
                       else if Reschedulable(old(messages), id, org) then Returned else NotFound
    {
      if actor == "" {
        return PermissionDenied;
      }
      if !Reschedulable(messages, id, org) {
        return NotFound;
      }
      messages := messages[id := messages[id].(
        status := Draft, approved := 0, approvedBy := None, approvedAt := None, scheduledAt := None, lastError := None)];
      return Returned;
    }

    /** Only an unapproved draft or a failed message can go; nothing queued, sent, rejected or being written is
        ever removed, and no other row changes. */
    method ProcessSingleDraftDelete(id: int, org: Option<int>) returns (reply: Reply)
      modifies this
      ensures messages == DeleteDraft(old(messages), id, org)
      ensures forall other :: other in old(messages) && (other != id || old(messages)[other].status !in {Draft, Failed}) ==>
                other in messages && messages[other] == old(messages)[other]
      ensures forall other :: other in messages ==> other in old(messages)
      ensures id !in messages <==> id !in old(messages) || reply == Deleted
      ensures reply == if Deletable(old(messages), id, org) then Deleted else NotFound
    {
      if !Deletable(messages, id, org) {
        return NotFound;
      }
      messages := messages - {id};
      return Deleted;
    }

    /** The claim, in both forms: one statement that updates the rows its query finds unlocked and returns them
        in any order, or a query and then one guarded update per id. `scan` and `returning` are orders in which
        the database visits the table, `locked` the rows other transactions hold. */
    method ClaimDueScheduledDrafts(
        oneStatement: bool, scan: seq<int>, returning: seq<int>, locked: set<int>, now: int, limit: nat, org: Option<int>)
      returns (ids: seq<int>)
      requires IsScan(messages, scan) && IsScan(messages, returning)
      modifies this
      ensures EarliestDue(cfg, if oneStatement then old(messages) - locked else old(messages), ids, now, limit, org)
      ensures !oneStatement ==> SortedByTime(old(messages), ids)
      ensures messages == ClaimRows(old(messages), IdSet(ids), now)
    {
      hide EarliestDue, SortedByTime, DueQuery;
      if oneStatement {
        ids := ClaimInOneStatement(scan, returning, locked, now, limit, org);
      } else {
        ids := DueQuery(cfg, messages, scan, now, limit, org);
        DueQueryAnswers(cfg, messages, scan, now, limit, org);
        ChosenAreWaiting(cfg, messages, ids, now, limit, org);
        UpdateEach(ids, now);
      }
    }

    method ClaimInOneStatement(scan: seq<int>, returning: seq<int>, locked: set<int>, now: int, limit: nat, org: Option<int>)
      returns (ids: seq<int>)
      requires IsScan(messages, scan) && IsScan(messages, returning)
      modifies this
      ensures EarliestDue(cfg, old(messages) - locked, ids, now, limit, org)
      ensures messages == ClaimRows(old(messages), IdSet(ids), now)
    {
      hide EarliestDue, SortedByTime;
      var free := messages - locked;
      var found := DueQuery(cfg, free, scan, now, limit, org);
      DueQueryAnswers(cfg, free, scan, now, limit, org);
      var chosen := set id | id in found;
      messages := ClaimRows(messages, chosen, now);
      AnyOrderIsClaimed(cfg, free, found, returning, now, limit, org);
      ids := InReturnOrder(returning, chosen);
      assert forall id :: id in IdSet(ids) <==> id in chosen;
      assert IdSet(ids) == chosen;
    }

    /** One guarded update for each id of a claim query. */
    method UpdateEach(ids: seq<int>, now: int)
      requires Distinct(ids) && forall id :: id in ids ==> id in messages && messages[id].status == Scheduled && messages[id].approved == 1
      modifies this
      ensures messages == ClaimRows(old(messages), IdSet(ids), now)
    {
      hide ClaimRows, ClaimedRow;
      ghost var before := messages;
      NothingClaimed(before, now);
      assert IdSet(ids[..0]) == {};
      for i := 0 to |ids|
        invariant messages == ClaimRows(before, IdSet(ids[..i]), now)
      {
        assert ids[i] in ids && ids[i] !in ids[..i];
        OneMoreId(ids, i);
        ClaimOneMore(before, IdSet(ids[..i]), ids[i], now);
        if ids[i] in messages && messages[ids[i]].status == Scheduled && messages[ids[i]].approved == 1 {
          WritesClaim(messages[ids[i]], now);
          messages := messages[ids[i] := messages[ids[i]].(status := Sending, claimedAt := Some(now), lastError := None)];
        }
      }
      assert ids[..|ids|] == ids;
    }

    /** One scheduler round without interference. `answer(k)` and `clock(k)` are the transport's answer and
        the clock for the k-th draft claimed. */
    method SendDueScheduledDrafts(
        limit: int, org: Option<int>, actor: string, oneStatement: bool, scan: seq<int>, returning: seq<int>,
        now: int, cutoff: int, answer: nat -> Outcome, clock: nat -> int)
      returns (claimed: seq<int>, processed: nat, sent: nat, failed: nat)
      requires IsScan(messages, scan) && IsScan(messages, returning)
      modifies this
      ensures RoundPossible(cfg, old(messages), Round(now, cutoff, limit, org, actor, claimed, answer, clock))
      ensures messages == RoundResult(cfg, old(messages), Round(now, cutoff, limit, org, actor, claimed, answer, clock))
      ensures processed == |claimed| && sent == DeliveredCount(answer, |claimed|) && sent + failed == processed
    {
      ghost var before := messages;
      messages := map id | id in messages :: Swept(cfg, messages[id], cutoff, org);
      hide EarliestDue, Swept, SendOne, Sendable, DeliveredCount, SendFirst;
      NothingLocked(messages);
      claimed := ClaimDueScheduledDrafts(oneStatement, scan, returning, {}, now, SchedulerRuns.BatchLimit(limit), org);
      ghost var round := Round(now, cutoff, limit, org, actor, claimed, answer, clock);
      processed, sent, failed := 0, 0, 0;
      SendNothingYet(cfg, Claimed(cfg, before, round), round);
      for k := 0 to |claimed|
        invariant messages == SendFirst(cfg, Claimed(cfg, before, round), round, k)
        invariant processed == k && sent == DeliveredCount(answer, k) && sent + failed == k
      {
        ClaimedIsFound(cfg, before, round, k);
        SendOneMore(cfg, Claimed(cfg, before, round), round, k);
        var reply := SendApprovedDraft(claimed[k], actor, org, answer(k), clock(k));
        processed := processed + 1;
        if reply.ApprovedSent? {
          sent := sent + 1;
        } else if reply.SendFailed? {
          failed := failed + 1;
        }
      }
    }
  }

  lemma SendNothingYet(cfg: Config, t: Table, r: Round)
    ensures SendFirst(cfg, t, r, 0) == t && DeliveredCount(r.answer, 0) == 0
  {
  }

  lemma SendOneMore(cfg: Config, t: Table, r: Round, k: nat)
    requires k < |r.ids|
    ensures SendFirst(cfg, t, r, k + 1) == SendOne(cfg, SendFirst(cfg, t, r, k), r.ids[k], r.org, r.actor, r.clock(k), r.answer(k))
    ensures DeliveredCount(r.answer, k + 1) == DeliveredCount(r.answer, k) + if r.answer(k).Delivered? then 1 else 0
  {
  }

  lemma OneMoreId(ids: seq<int>, i: nat)
    requires i < |ids|
    ensures IdSet(ids[..i + 1]) == IdSet(ids[..i]) + {ids[i]}
  {
    assert ids[..i + 1] == ids[..i] + [ids[i]];
    assert forall id :: id in IdSet(ids[..i + 1]) <==> id in IdSet(ids[..i]) + {ids[i]};
  }

  lemma WritesClaim(m: Message, now: int)
    ensures m.(status := Sending, claimedAt := Some(now), lastError := None) == ClaimedRow(m, now)
  {
  }

  /** Resend attempts leave the stored subject stable: once an attempt has normalised it, another attempt,
      whatever came of the first, stores the same subject. */
  lemma ResendKeepsSubject(
      cfg: Config, locale: Subjects.Locale, company: string, m: Message,
      readStatus: Status, actor: string, now: int, outcome: Outcome)
    requires forall s :: cfg.normalize(s) == Subjects.Normalize(locale, s, company)
    ensures AttemptStarted(cfg, AfterSend(cfg, AttemptStarted(cfg, m), readStatus, actor, now, outcome)).subject
            == AttemptStarted(cfg, m).subject
  {
    Subjects.NormalizeTwice(locale, m.subject, company);
  }
}

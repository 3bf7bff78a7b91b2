/** services/sequence_service.py over in-memory tables: the methods change rows in place and are specified
    by the predicates of SequenceEdits and Followups. */
module SequenceService {
  import opened Common
  import opened Messages
  import opened Steps
  import opened Outreach
  import opened SequenceEdits
  import opened Followups
  import Subjects

  datatype EditReply = Edited | EditRefused(problem: Problem)

  /** Requested steps are checked one by one; the first bad one decides. */
  method CleanSteps(raws: seq<RawStep>) returns (request: Request, problem: Option<Problem>)
    ensures problem.None? <==> Accepted(raws)
    ensures problem.None? ==> Asks(raws, request)
    ensures problem != Some(CampaignNotFound)
    ensures problem.Some? ==> exists i :: RefusedAt(raws, i, problem.value)
  {
    request := map[];
    for i := 0 to |raws|
      invariant forall j: nat :: j < i ==> !Refused(raws, j)
      invariant forall j :: 0 <= j < i ==> NumberOf(raws[j]) in request && request[NumberOf(raws[j])] == ContentOf(raws[j])
      invariant forall n :: n in request ==> exists j :: 0 <= j < i && NumberOf(raws[j]) == n
    {
      var number, content := NumberOf(raws[i]), ContentOf(raws[i]);
      if number <= 0 || number in request {
        problem := Some(BadNumber);
        assert RefusedAt(raws, i, BadNumber);
        return;
      }
      assert !NumberRefused(raws, i);
      if content.delayDays < 1 {
        problem := Some(BadDelay);
        assert RefusedAt(raws, i, BadDelay);
        return;
      }
      request := request[number := content];
    }
    problem := None;
  }

  class SequenceService {
    const writer: Writer
    var tables: Joined
    var nextStepId: int
    var messages: Table
    var nextMessageId: int

    constructor (writer: Writer, tables: Joined, nextStepId: int, messages: Table, nextMessageId: int)
      ensures this.writer == writer && this.tables == tables && this.nextStepId == nextStepId
      ensures this.messages == messages && this.nextMessageId == nextMessageId
    {
      this.writer := writer;
      this.tables := tables;
      this.nextStepId := nextStepId;
      this.messages := messages;
      this.nextMessageId := nextMessageId;
    }

    /** The schema: UNIQUE (campaign_id, step_number), and generated ids are new. */
    ghost predicate Valid()
      reads this
    {
      && UniqueNumbers(tables.steps)
      && (forall id :: id in tables.steps ==> id < nextStepId)
      && (IdsKnown(messages, nextMessageId))
    }

    method ReplaceSequenceSteps(campaign: int, raws: seq<RawStep>, org: Option<int>) returns (reply: EditReply, request: Request)
      requires Valid()
      modifies this`tables, this`nextStepId
      ensures Valid() && tables == old(tables).(steps := tables.steps)
      ensures Accepted(raws) <==> reply.Edited? || reply == EditRefused(CampaignNotFound)
      ensures reply.EditRefused? ==> tables == old(tables)
      ensures reply.EditRefused? && reply.problem != CampaignNotFound ==> exists i :: RefusedAt(raws, i, reply.problem)
      ensures Accepted(raws) ==>
                (reply.Edited? <==> campaign in tables.campaigns && (org.None? || tables.campaigns[campaign].org == org.value))
      ensures reply.Edited? ==>
                Asks(raws, request) && Replaced(old(tables.steps), old(nextStepId), messages, campaign, request, tables.steps)
    {
      hide Replaced, Upserted, Retired, Asks, Accepted, RefusedAt;
      var problem: Option<Problem>;
      request, problem := CleanSteps(raws);
      if problem.Some? {
        return EditRefused(problem.value), request;
      }
      if campaign !in tables.campaigns || (org.Some? && tables.campaigns[campaign].org != org.value) {
        return EditRefused(CampaignNotFound), request;
      }
      var steps := tables.steps;
      var existing: map<int, int> := map id | id in steps && steps[id].campaign == campaign :: steps[id].number := id;
      UpsertSteps(campaign, request, existing);
      ghost var mid, nextMid := tables.steps, nextStepId;
      UpsertingKeepsRows(steps, old(nextStepId), campaign, request, request.Keys, mid, nextMid);
      RetireSteps(campaign, request, existing);
      TwoPassesEdit(steps, old(nextStepId), messages, campaign, request, existing, mid, nextMid, tables.steps);
      reply := Edited;
    }

    /** Update the rows whose number is requested and insert the others, in the order of their numbers. */
    method UpsertSteps(campaign: int, request: Request, existing: map<int, int>)
      requires Valid() && IsIndex(tables.steps, campaign, existing)
      modifies this`tables, this`nextStepId
      ensures Valid() && tables == old(tables).(steps := tables.steps)
      ensures Upserted(old(tables.steps), old(nextStepId), campaign, request, request.Keys, tables.steps, nextStepId)
    {
      ghost var before := tables.steps;
      var todo := request.Keys;
      while todo != {}
        invariant todo <= request.Keys
        invariant tables == old(tables).(steps := tables.steps)
        invariant Upserted(before, old(nextStepId), campaign, request, request.Keys - todo, tables.steps, nextStepId)
        invariant forall id :: id in tables.steps ==> id < nextStepId
        decreases |todo|
      {
        var number := Least(todo);
        var content := request[number];
        var steps := tables.steps;
        UpsertOne(before, old(nextStepId), campaign, request, request.Keys - todo, steps, nextStepId, existing, number);
        OneLessToDo(request.Keys, todo, number);
        if number in existing {
          var id := existing[number];
          tables := tables.(steps := steps[id := steps[id].(
            delayDays := content.delayDays, subject := content.subject, body := content.body, active := content.active)]);
        } else {
          var row := StepRow(campaign, number, content.delayDays, content.subject, content.body, content.active);
          tables := tables.(steps := steps[nextStepId := row]);
          nextStepId := nextStepId + 1;
        }
        todo := todo - {number};
      }
      assert request.Keys - todo == request.Keys;
    }

    /** Switch off the rows that are no longer requested but referenced, and delete the others. */
    method RetireSteps(campaign: int, request: Request, existing: map<int, int>)
      requires Valid()
      requires forall n :: n in existing ==>
                 existing[n] in tables.steps && tables.steps[existing[n]].campaign == campaign && tables.steps[existing[n]].number == n
      modifies this`tables
      ensures Valid() && tables == old(tables).(steps := tables.steps)
      ensures Retired(old(tables.steps), messages, campaign, existing.Keys - request.Keys, tables.steps)
    {
      hide Retired, IsReferenced, UniqueNumbers;
      ghost var before := tables.steps;
      var all := existing.Keys - request.Keys;
      var todo := all;
      NothingRetiredYet(before, messages, campaign, all - todo);
      while todo != {}
        invariant todo <= all
        invariant tables == old(tables).(steps := tables.steps)
        invariant Retired(before, messages, campaign, all - todo, tables.steps)
        decreases |todo|
      {
        var number := Least(todo);
        var id := existing[number];
        var steps := tables.steps;
        NotYetRetired(before, messages, campaign, all - todo, steps, id);
        var after := if IsReferenced(messages, id) then steps[id := steps[id].(active := false)] else steps - {id};
        OneLessToDo(all, todo, number);
        ghost var gone := all - (todo - {number});
        RetireOne(before, messages, campaign, all - todo, steps, id, gone, after);
        tables := tables.(steps := after);
        todo := todo - {number};
      }
      assert all - todo == all;
      RetiringKeepsRows(before, messages, campaign, all, tables.steps);
    }

    /** Insert a draft for every due row the query returned. `now` is in microseconds, `stamp` the second of
        the inserts; `keys` is what the database answered. */
    method GenerateDueFollowupDrafts(
        campaign: Option<int>, limit: int, org: Option<int>, ignoreDelay: bool, keys: seq<(int, int)>, now: int, stamp: int)
      returns (picks: seq<nat>, generated: nat, skipped: nat)
      requires Valid() && Subjects.Folds(writer.locale)
      requires Answers(tables, keys, Max(1, Min(limit, 200)), campaign, org)
      modifies this`messages, this`nextMessageId
      ensures Valid()
      ensures var job := Job(old(messages), old(nextMessageId), Rows(tables, keys), now, ignoreDelay, writer, stamp);
              Generated(job, |keys|, picks, messages)
      ensures nextMessageId == old(nextMessageId) + |picks|
      ensures generated == |picks| && generated + skipped == |keys|
    {
      AnswersAreRows(tables, keys, Max(1, Min(limit, 200)), campaign, org);
      picks, skipped := GenerateForRows(Rows(tables, keys), now, ignoreDelay, stamp);
      generated := |picks|;
    }

    /** The loop over the rows; `picks` are the positions of the rows a draft was inserted for. */
    method GenerateForRows(rows: seq<Row>, now: int, ignoreDelay: bool, stamp: int) returns (picks: seq<nat>, skipped: nat)
      requires IdsKnown(messages, nextMessageId) && Subjects.Folds(writer.locale)
      modifies this`messages, this`nextMessageId
      ensures IdsKnown(messages, nextMessageId)
      ensures Generated(Job(old(messages), old(nextMessageId), rows, now, ignoreDelay, writer, stamp), |rows|, picks, messages)
      ensures nextMessageId == old(nextMessageId) + |picks|
      ensures |picks| + skipped == |rows|
    {
      hide Generated, DraftOf, Inserts;
      ghost var job := Job(messages, nextMessageId, rows, now, ignoreDelay, writer, stamp);
      picks, skipped := [], 0;
      NothingGeneratedYet(job);
      for k := 0 to |rows|
        invariant Generated(job, k, picks, messages)
        invariant nextMessageId == job.nextId + |picks|
        invariant |picks| + skipped == k
      {
        ghost var id, before := nextMessageId, messages;
        var inserted := GenerateForRow(rows[k], now, ignoreDelay, stamp);
        if inserted {
          AfterInsert(job, k, picks, id, before, messages);
          picks := picks + [k];
        } else {
          AfterSkip(job, k, picks, before);
          skipped := skipped + 1;
        }
      }
      GeneratedIdsAreKnown(job, |rows|, picks, messages);
    }

    /** One row: no draft before its time and none beside a draft or a sent message for the same step. */
    method GenerateForRow(row: Row, now: int, ignoreDelay: bool, stamp: int) returns (inserted: bool)
      requires Subjects.Folds(writer.locale)
      modifies this`messages, this`nextMessageId
      ensures inserted == Inserts(old(messages), row, now, ignoreDelay)
      ensures messages == if inserted then old(messages)[old(nextMessageId) := DraftOf(writer, row, stamp)] else old(messages)
      ensures nextMessageId == old(nextMessageId) + if inserted then 1 else 0
    {
      if !ignoreDelay && (row.lastContacted.None? || now - row.lastContacted.value < row.step.delayDays * DAY_MICROS) {
        return false;
      }
      if HasDuplicate(messages, row) {
        return false;
      }
      var draft := WriteDraft(row, stamp);
      messages := messages[nextMessageId := draft];
      nextMessageId := nextMessageId + 1;
      return true;
    }

    /** The text of one draft. */
    method WriteDraft(row: Row, stamp: int) returns (draft: Message)
      requires Subjects.Folds(writer.locale)
      ensures draft == DraftOf(writer, row, stamp)
      ensures !Subjects.Marked(writer.locale, draft.subject)
    {
      var rendered := writer.render(Or(row.step.subject, DEFAULT_SUBJECT), row);
      var subject := Subjects.SequenceSubject(writer.locale, rendered, writer.company);
      var body := writer.render(Or(row.step.body, writer.defaultBody), row);
      draft := Message(row.org, row.lead, Some(row.campaign), Some(row.stepId), true, Subjects.Lower(writer.locale, row.channel),
                       subject, body, Draft, 0, None, None, None, None, 0, None, stamp, None);
    }

    /** The listing of the same rows. It reads only. */
    method ListUpcomingFollowups(
        campaign: Option<int>, limit: int, org: Option<int>, ignoreDelay: bool, keys: seq<(int, int)>, now: int)
      returns (listed: seq<Listed>, dueCount: nat)
      requires Answers(tables, keys, Max(1, Min(limit, 500)), campaign, org)
      ensures |listed| == |keys|
      ensures forall i :: 0 <= i < |keys| ==> listed[i] == List(messages, Rows(tables, keys)[i], now, ignoreDelay)
      ensures dueCount == DueCount(listed)
    {
      AnswersAreRows(tables, keys, Max(1, Min(limit, 500)), campaign, org);
      hide List, Rows, Eligible, Answers;
      var rows := Rows(tables, keys);
      listed, dueCount := [], 0;
      for k := 0 to |rows|
        invariant |listed| == k
        invariant forall i :: 0 <= i < k ==> listed[i] == List(messages, rows[i], now, ignoreDelay)
        invariant dueCount == DueCount(listed)
      {
        var item := List(messages, rows[k], now, ignoreDelay);
        assert (listed + [item])[..k] == listed;
        listed := listed + [item];
        if item.isDue {
          dueCount := dueCount + 1;
        }
      }
    }
  }
}

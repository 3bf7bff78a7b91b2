/** What replacing a campaign's sequence steps does to the step table, and what it leaves standing. */
module SequenceEdits {
  import opened Common
  import opened Messages
  import opened Steps
  import opened Outreach
  import opened StepSearch
  import Subjects

  /** The `active` field of a request: missing, an explicit null, or a truth value. */
  datatype Flag = Missing | Null | Given(value: bool)

  /** A requested step as it arrives: every field may be missing or null. */
  datatype RawStep = RawStep(number: Option<int>, delayDays: Option<int>, subject: string, body: string, active: Flag)

  /** A missing flag stands for an active step, an explicit null for an inactive one. */
  predicate IsActive(flag: Flag) { flag.Missing? || (flag.Given? && flag.value) }

  /** The columns a request sets. */
  datatype Content = Content(delayDays: int, subject: string, body: string, active: bool)

  type Request = map<int, Content>

  datatype Problem = BadNumber | BadDelay | CampaignNotFound

  function NumberOf(raw: RawStep): int { if raw.number.Some? then raw.number.value else 0 }

  function ContentOf(raw: RawStep): Content {
    Content(if raw.delayDays.Some? then raw.delayDays.value else 3, Subjects.Strip(raw.subject), Subjects.Strip(raw.body),
            IsActive(raw.active))
  }

  /** Step `i` of a request is refused for its number: not positive, or seen before. */
  ghost predicate NumberRefused(raws: seq<RawStep>, i: nat)
    requires i < |raws|
  {
    NumberOf(raws[i]) <= 0 || exists j :: 0 <= j < i && NumberOf(raws[j]) == NumberOf(raws[i])
  }

  ghost predicate Refused(raws: seq<RawStep>, i: nat)
    requires i < |raws|
  {
    NumberRefused(raws, i) || ContentOf(raws[i]).delayDays < 1
  }

  /** The request is refused because of step `i`, the first bad one. */
  ghost predicate RefusedAt(raws: seq<RawStep>, i: nat, problem: Problem) {
    && i < |raws| && Refused(raws, i) && (forall j: nat :: j < i ==> !Refused(raws, j))
    && problem == if NumberRefused(raws, i) then BadNumber else BadDelay
  }

  ghost predicate Accepted(raws: seq<RawStep>) { forall i: nat :: i < |raws| ==> !Refused(raws, i) }

  /** The request asks for exactly the listed steps. */
  ghost predicate Asks(raws: seq<RawStep>, request: Request) {
    && (forall i :: 0 <= i < |raws| ==> NumberOf(raws[i]) in request && request[NumberOf(raws[i])] == ContentOf(raws[i]))
    && (forall n :: n in request ==> exists i :: 0 <= i < |raws| && NumberOf(raws[i]) == n)
  }

  // ---- The edit ----------------------------------------------------------------------------------

  predicate Holds(row: StepRow, content: Content) {
    row.delayDays == content.delayDays && row.subject == content.subject && row.body == content.body && row.active == content.active
  }

  predicate IsReferenced(messages: Table, step: int) {
    exists id :: id in messages && messages[id].stepId == Some(step)
  }

  function WithContent(row: StepRow, content: Content): StepRow {
    row.(delayDays := content.delayDays, subject := content.subject, body := content.body, active := content.active)
  }

  /** What the edit makes of an existing row of the campaign; None is a deleted row. */
  function EditedRow(messages: Table, request: Request, id: int, row: StepRow): Option<StepRow> {
    if row.number in request then Some(WithContent(row, request[row.number]))
    else if IsReferenced(messages, id) then Some(row.(active := false))
    else None
  }

  predicate HasNumber(steps: StepTable, campaign: int, number: int) {
    exists id :: id in steps && steps[id].campaign == campaign && steps[id].number == number
  }

  /** The step table after the edit, up to the choice of ids for new rows. */
  ghost predicate Replaced(steps: StepTable, nextId: int, messages: Table, campaign: int, request: Request, steps': StepTable) {
    && (forall id :: id in steps ==>
          if steps[id].campaign != campaign then id in steps' && steps'[id] == steps[id]
          else
            match EditedRow(messages, request, id, steps[id])
            case Some(row) => id in steps' && steps'[id] == row
            case None => id !in steps')
    && (forall id :: id in steps' && id !in steps ==>
          && id >= nextId && steps'[id].campaign == campaign && steps'[id].number in request
          && !HasNumber(steps, campaign, steps'[id].number)
          && Holds(steps'[id], request[steps'[id].number]))
    && (forall n :: n in request ==> HasNumber(steps', campaign, n))
    && UniqueNumbers(steps')
  }

  // ---- The edit in its two passes ----------------------------------------------------------------

  /** After the requested steps in `done` were updated or inserted. */
  ghost predicate Upserted(steps: StepTable, nextId: int, campaign: int, request: Request, done: set<int>, steps': StepTable, nextId': int) {
    && nextId <= nextId' && done <= request.Keys
    && (forall id :: id in steps ==>
          && id in steps'
          && steps'[id] == if steps[id].campaign == campaign && steps[id].number in done
                           then WithContent(steps[id], request[steps[id].number]) else steps[id])
    && (forall id :: id in steps' && id !in steps ==>
          && nextId <= id < nextId' && steps'[id].campaign == campaign && steps'[id].number in done
          && !HasNumber(steps, campaign, steps'[id].number)
          && Holds(steps'[id], request[steps'[id].number]))
    && (forall n :: n in done ==> HasNumber(steps', campaign, n))
    && UniqueNumbers(steps')
  }

  /** After the steps in `gone` were switched off or deleted. */
  ghost predicate Retired(steps: StepTable, messages: Table, campaign: int, gone: set<int>, steps': StepTable) {
    && (forall id :: id in steps' ==> id in steps)
    && (forall id :: id in steps ==>
          if steps[id].campaign != campaign || steps[id].number !in gone then id in steps' && steps'[id] == steps[id]
          else if IsReferenced(messages, id) then id in steps' && steps'[id] == steps[id].(active := false)
          else id !in steps')
  }

  /** The row of each number the campaign has. */
  ghost predicate IsIndex(steps: StepTable, campaign: int, existing: map<int, int>) {
    && (forall n :: n in existing ==> existing[n] in steps && steps[existing[n]].campaign == campaign && steps[existing[n]].number == n)
    && (forall id :: id in steps && steps[id].campaign == campaign ==> steps[id].number in existing && existing[steps[id].number] == id)
  }

  lemma UpsertingKeepsRows(
      steps: StepTable, nextId: int, campaign: int, request: Request, done: set<int>, steps': StepTable, nextId': int)
    requires Upserted(steps, nextId, campaign, request, done, steps', nextId')
    ensures forall id :: id in steps ==> id in steps' && SameStep(steps[id], steps'[id])
  {
  }

  lemma UpsertOne(
      steps: StepTable, nextId: int, campaign: int, request: Request, done: set<int>, mid: StepTable, nextMid: int,
      existing: map<int, int>, n: int)
    requires Upserted(steps, nextId, campaign, request, done, mid, nextMid) && IsIndex(steps, campaign, existing)
    requires n in request && n !in done && forall id :: id in mid ==> id < nextMid
    ensures n in existing ==>
              && existing[n] in mid
              && Upserted(steps, nextId, campaign, request, done + {n}, mid[existing[n] := WithContent(mid[existing[n]], request[n])], nextMid)
    ensures n !in existing ==>
              Upserted(steps, nextId, campaign, request, done + {n}, mid[nextMid := NewStep(campaign, n, request[n])], nextMid + 1)
  {
    if n in existing {
      UpdateOne(steps, nextId, campaign, request, done, mid, nextMid, existing, n);
    } else {
      InsertOne(steps, nextId, campaign, request, done, mid, nextMid, existing, n);
    }
  }

  function NewStep(campaign: int, n: int, content: Content): StepRow {
    StepRow(campaign, n, content.delayDays, content.subject, content.body, content.active)
  }

  lemma HasNumberAfterWrite(steps: StepTable, campaign: int, id: int, row: StepRow, n: int)
    requires HasNumber(steps, campaign, n) && (id in steps ==> SameStep(steps[id], row))
    ensures HasNumber(steps[id := row], campaign, n)
  {
    var at :| at in steps && steps[at].campaign == campaign && steps[at].number == n;
    assert at in steps[id := row];
  }

  lemma UpdateOne(
      steps: StepTable, nextId: int, campaign: int, request: Request, done: set<int>, mid: StepTable, nextMid: int,
      existing: map<int, int>, n: int)
    requires Upserted(steps, nextId, campaign, request, done, mid, nextMid) && IsIndex(steps, campaign, existing)
    requires n in request && n !in done && n in existing
    ensures existing[n] in mid
    ensures Upserted(steps, nextId, campaign, request, done + {n}, mid[existing[n] := WithContent(mid[existing[n]], request[n])], nextMid)
  {
    var id := existing[n];
    var row := WithContent(mid[id], request[n]);
    var steps' := mid[id := row];
    forall k | k in done + {n}
      ensures HasNumber(steps', campaign, k)
    {
      if k in done {
        HasNumberAfterWrite(mid, campaign, id, row, k);
      } else {
        assert id in steps' && steps'[id].number == k;
      }
    }
  }

  lemma InsertOne(
      steps: StepTable, nextId: int, campaign: int, request: Request, done: set<int>, mid: StepTable, nextMid: int,
      existing: map<int, int>, n: int)
    requires Upserted(steps, nextId, campaign, request, done, mid, nextMid) && IsIndex(steps, campaign, existing)
    requires n in request && n !in done && n !in existing && forall id :: id in mid ==> id < nextMid
    ensures Upserted(steps, nextId, campaign, request, done + {n}, mid[nextMid := NewStep(campaign, n, request[n])], nextMid + 1)
  {
    var row := NewStep(campaign, n, request[n]);
    var steps' := mid[nextMid := row];
    forall k | k in done + {n}
      ensures HasNumber(steps', campaign, k)
    {
      if k in done {
        HasNumberAfterWrite(mid, campaign, nextMid, row, k);
      } else {
        assert nextMid in steps' && steps'[nextMid].number == k;
      }
    }
  }

  lemma RetireOne(
      steps: StepTable, messages: Table, campaign: int, gone: set<int>, mid: StepTable, id: int, more: set<int>, after: StepTable)
    requires Retired(steps, messages, campaign, gone, mid) && UniqueNumbers(steps)
    requires id in steps && steps[id].campaign == campaign && steps[id].number !in gone && more == gone + {steps[id].number}
    requires after == if IsReferenced(messages, id) then mid[id := steps[id].(active := false)] else mid - {id}
    ensures Retired(steps, messages, campaign, more, after)
  {
  }

  lemma NotYetRetired(steps: StepTable, messages: Table, campaign: int, gone: set<int>, mid: StepTable, id: int)
    requires Retired(steps, messages, campaign, gone, mid)
    requires id in steps && steps[id].number !in gone
    ensures id in mid && mid[id] == steps[id]
  {
  }

  lemma OneLessToDo(all: set<int>, todo: set<int>, n: int)
    requires n in todo && todo <= all
    ensures all - (todo - {n}) == all - todo + {n}
  {
    var left, right := all - (todo - {n}), all - todo + {n};
    assert forall x :: x in left <==> x in right;
  }

  lemma NothingRetiredYet(steps: StepTable, messages: Table, campaign: int, gone: set<int>)
    requires forall n :: n !in gone
    ensures Retired(steps, messages, campaign, gone, steps)
  {
  }

  lemma RetiringKeepsRows(steps: StepTable, messages: Table, campaign: int, gone: set<int>, steps': StepTable)
    requires Retired(steps, messages, campaign, gone, steps')
    ensures UniqueNumbers(steps) ==> UniqueNumbers(steps')
    ensures forall id :: id in steps' ==> id in steps
  {
  }

  /** The two passes make the edit. */
  lemma TwoPassesEdit(
      steps: StepTable, nextId: int, messages: Table, campaign: int, request: Request, existing: map<int, int>,
      mid: StepTable, nextMid: int, steps': StepTable)
    requires IsIndex(steps, campaign, existing)
    requires Upserted(steps, nextId, campaign, request, request.Keys, mid, nextMid)
    requires Retired(mid, messages, campaign, existing.Keys - request.Keys, steps')
    ensures Replaced(steps, nextId, messages, campaign, request, steps')
  {
    hide IsReferenced;
    forall n | n in request
      ensures HasNumber(steps', campaign, n)
    {
      var id :| id in mid && mid[id].campaign == campaign && mid[id].number == n;
      assert id in steps' && steps'[id] == mid[id];
    }
  }

  /** Every reference of a message is to an existing step row. */
  ghost predicate ReferencesResolve(messages: Table, steps: StepTable) {
    forall id :: id in messages && messages[id].stepId.Some? ==> messages[id].stepId.value in steps
  }

  /** An edit keeps history: a referenced step row is still there with its campaign and number. */
  lemma EditKeepsReferences(
      steps: StepTable, nextId: int, messages: Table, campaign: int, request: Request, steps': StepTable, step: int)
    requires Replaced(steps, nextId, messages, campaign, request, steps')
    requires step in steps && IsReferenced(messages, step)
    ensures step in steps' && SameStep(steps[step], steps'[step])
  {
    assert steps[step].campaign == campaign ==> EditedRow(messages, request, step, steps[step]).Some?;
  }

  /** The active steps of the campaign are exactly the requested active ones, with the requested content. */
  lemma ActiveAreRequested(
      steps: StepTable, nextId: int, messages: Table, campaign: int, request: Request, steps': StepTable, number: int)
    requires Replaced(steps, nextId, messages, campaign, request, steps')
    ensures (exists id :: id in steps' && steps'[id].campaign == campaign && steps'[id].number == number && steps'[id].active)
            <==> number in request && request[number].active
    ensures forall id :: id in steps' && steps'[id].campaign == campaign && steps'[id].number in request ==>
              Holds(steps'[id], request[steps'[id].number])
  {
    forall id | id in steps' && steps'[id].campaign == campaign
      ensures steps'[id].number in request ==> Holds(steps'[id], request[steps'[id].number])
      ensures steps'[id].number !in request ==> !steps'[id].active
    {
      if id in steps {
        assert steps[id].campaign == campaign ==> EditedRow(messages, request, id, steps[id]).Some?;
      }
    }
    if number in request && request[number].active {
      assert HasNumber(steps', campaign, number);
    }
  }

  /** Repeating a request changes nothing. */
  lemma EditIsIdempotent(
      steps: StepTable, nextId: int, messages: Table, campaign: int, request: Request, steps': StepTable,
      nextId': int, steps'': StepTable)
    requires Replaced(steps, nextId, messages, campaign, request, steps')
    requires Replaced(steps', nextId', messages, campaign, request, steps'')
    ensures steps'' == steps'
  {
    forall id | id in steps'
      ensures id in steps'' && steps''[id] == steps'[id]
    {
      if steps'[id].campaign == campaign {
        RepeatedRow(steps, nextId, messages, campaign, request, steps', id);
      }
    }
    forall id | id in steps''
      ensures id in steps'
    {
      assert steps''[id].number in request ==> HasNumber(steps', campaign, steps''[id].number);
    }
  }

  lemma RepeatedRow(
      steps: StepTable, nextId: int, messages: Table, campaign: int, request: Request, steps': StepTable, id: int)
    requires Replaced(steps, nextId, messages, campaign, request, steps')
    requires id in steps' && steps'[id].campaign == campaign
    ensures EditedRow(messages, request, id, steps'[id]) == Some(steps'[id])
  {
    if id in steps {
      assert steps[id].campaign == campaign ==> EditedRow(messages, request, id, steps[id]) == Some(steps'[id]);
    }
  }

  // ---- Positions across edits ----------------------------------------------------------------------

  /** One edit between two states of the step table. */
  ghost predicate IsEdit(messages: Table, steps: StepTable, steps': StepTable) {
    exists nextId, campaign, request :: Replaced(steps, nextId, messages, campaign, request, steps')
  }

  /** Edits leave every reference in place, whoever made them. */
  lemma {:induction false} EditsKeepReferences(messages: Table, tables: seq<StepTable>, k: nat, step: int)
    requires k < |tables|
    requires forall i :: 0 <= i < |tables| - 1 ==> IsEdit(messages, tables[i], tables[i + 1])
    requires step in tables[0] && IsReferenced(messages, step)
    ensures step in tables[k] && SameStep(tables[0][step], tables[k][step])
  {
    if k > 0 {
      EditsKeepReferences(messages, tables, k - 1, step);
      assert IsEdit(messages, tables[k - 1], tables[k]);
      var nextId, campaign, request :| Replaced(tables[k - 1], nextId, messages, campaign, request, tables[k]);
      EditKeepsReferences(tables[k - 1], nextId, messages, campaign, request, tables[k], step);
    }
  }

  /** Edit-stable position: whatever edits of sequences are made, of any campaign, and however the campaign's
      definitions and touch counts change with them, a lead whose last counted touch is linked stays where
      it is. */
  lemma EditsKeepPosition(db: Db, tables: seq<StepTable>, k: nat, p: Pair, db': Db)
    requires k < |tables| && tables[0] == db.steps
    requires forall i :: 0 <= i < |tables| - 1 ==> IsEdit(db.messages, tables[i], tables[i + 1])
    requires LastIsLinked(db, p)
    requires db'.messages == db.messages && db'.steps == tables[k]
    ensures LastIsLinked(db', p) && NextNumber(db', p) == NextNumber(db, p)
  {
    var last := db.messages[Latest(db.messages, Touches(db.messages, p))];
    assert last.stepId.Some?;
    var step := last.stepId.value;
    EditsKeepReferences(db.messages, tables, k, step);
  }

  /** As long as every reference resolves, an edit moves no lead at all. */
  lemma EditMovesNobody(db: Db, p: Pair, steps': StepTable)
    requires ReferencesResolve(db.messages, db.steps) && IsEdit(db.messages, db.steps, steps')
    ensures ReferencesResolve(db.messages, steps')
    ensures NextNumber(db.(steps := steps'), p) == NextNumber(db, p)
  {
    forall id | id in db.messages && db.messages[id].stepId.Some?
      ensures var step := db.messages[id].stepId.value;
              step in steps' && SameStep(db.steps[step], steps'[step])
    {
      var step := db.messages[id].stepId.value;
      EditsKeepReferences(db.messages, [db.steps, steps'], 1, step);
    }
    if Touches(db.messages, p) != {} {
      var last := Latest(db.messages, Touches(db.messages, p));
      assert LinkedNumber(db, db.messages[last]) == LinkedNumber(db.(steps := steps'), db.messages[last]);
    }
  }
}

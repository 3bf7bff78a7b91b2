/** When a follow-up draft is inserted, in terms of the messages there are; and generating again after the drafts
    have gone through the draft service. */
module FollowupMeaning {
  import opened Common
  import opened Messages
  import opened Steps
  import opened Drafts
  import opened SchedulerRuns
  import opened Followups
  import opened Outreach
  import Subjects

  /** An outbound message for the lead, campaign and step. */
  predicate ForStep(m: Message, row: Row) {
    m.outbound && m.lead == row.lead && m.campaign == Some(row.campaign) && m.stepId == Some(row.stepId)
  }

  /** Such a message is waiting for review, scheduled, being sent or sent. */
  ghost predicate Covered(t: Table, row: Row) {
    exists id :: id in t && ForStep(t[id], row)
                 && (t[id].status == Draft || t[id].status == Scheduled || t[id].status == Sending || t[id].status == Sent)
  }

  /** The lead was contacted at least the step's delay, in days of 86400 seconds, ago; instants are in microseconds. */
  ghost predicate PastDelay(row: Row, now: int) {
    exists last :: row.lastContacted == Some(last) && last + row.step.delayDays * 86_400_000_000 <= now
  }

  /** No earlier row of the query is for the same lead, campaign and step. */
  ghost predicate FirstForStep(rows: seq<Row>, i: nat)
    requires i < |rows|
  {
    forall j :: 0 <= j < i ==>
      !(rows[j].lead == rows[i].lead && rows[j].campaign == rows[i].campaign && rows[j].stepId == rows[i].stepId)
  }

  lemma InsertsMeans(t: Table, row: Row, now: int, ignoreDelay: bool)
    ensures Inserts(t, row, now, ignoreDelay) <==> (ignoreDelay || PastDelay(row, now)) && !Covered(t, row)
  {
    assert HasDuplicate(t, row) <==> Covered(t, row) by {
      if id :| id in t && Blocks(t[id], row) {
        assert ForStep(t[id], row);
      }
      if id :| id in t && ForStep(t[id], row) && t[id].status in {Draft, Scheduled, Sending, Sent} {
        assert Blocks(t[id], row);
      }
    }
    if !TooEarly(row, now, false) {
      assert row.lastContacted == Some(row.lastContacted.value);
    }
  }

  /** A row that is the first for its step gets a draft if and only if its delay is over, or ignored, and no message
      for the step is waiting for review, scheduled, being sent or sent. */
  lemma InsertedExactlyWhenUncovered(job: Job, picks: seq<nat>, t': Table, i: nat)
    requires Generated(job, |job.rows|, picks, t') && i < |job.rows| && FirstForStep(job.rows, i)
    ensures i in picks <==> (job.ignoreDelay || PastDelay(job.rows[i], job.now)) && !Covered(job.table, job.rows[i])
  {
    hide Inserts, Covered, PastDelay;
    InsertsMeans(job.table, job.rows[i], job.now, job.ignoreDelay);
  }

  /** The listing says of each row whether it is due, when, and why it is not. */
  lemma ListingMeans(t: Table, row: Row, now: int, ignoreDelay: bool)
    ensures var listed := List(t, row, now, ignoreDelay);
            && (listed.isDue <==> (ignoreDelay || PastDelay(row, now)) && !Covered(t, row))
            && (forall last :: row.lastContacted == Some(last) ==>
                  listed.dueAt == Some(last + row.step.delayDays * 86_400_000_000))
            && (row.lastContacted.None? ==> listed.dueAt.None?)
            && (listed.blocked == Some(ExistingDraftOrSent) <==> Covered(t, row))
            && (listed.blocked == Some(MissingLastContacted) <==> !Covered(t, row) && !ignoreDelay && row.lastContacted.None?)
            && (listed.delayIgnored <==> ignoreDelay && row.lastContacted.Some? && !PastDelay(row, now) && !Covered(t, row))
  {
    hide Covered;
    InsertsMeans(t, row, now, true);
    if row.lastContacted.Some? {
      assert row.lastContacted == Some(row.lastContacted.value);
    }
  }

  /** The number reported as due is the number of rows listed as due. */
  lemma {:induction false} DueCountMeans(listed: seq<Listed>)
    ensures DueCount(listed) == |set i | 0 <= i < |listed| && listed[i].isDue|
  {
    var due: set<int> := set i | 0 <= i < |listed| && listed[i].isDue;
    if listed == [] {
      assert due == {};
    } else {
      var n := |listed| - 1;
      DueCountMeans(listed[..n]);
      var before: set<int> := set i | 0 <= i < n && listed[..n][i].isDue;
      OneMore(before, due, n, listed[n].isDue);
    }
  }

  /** An unapproved outbound draft for the lead, campaign and step of a row. */
  predicate IsDraftFor(m: Message, row: Row, stamp: int) {
    && ForStep(m, row) && m.org == row.org && m.status == Draft && m.approved == 0 && m.createdAt == stamp
    && m.attempts == 0 && m.claimedAt.None? && m.scheduledAt.None? && m.sentAt.None? && m.approvedBy.None?
  }

  lemma DraftForIsDraft(job: Job, row: Row)
    ensures IsDraftFor(DraftFor(job, row), row, job.stamp)
  {
    hide DraftSubject;
  }

  /** What is inserted for a row. */
  lemma DraftMeans(job: Job, picks: seq<nat>, t': Table, n: nat)
    requires Generated(job, |job.rows|, picks, t') && n < |picks|
    ensures picks[n] < |job.rows| && job.nextId + n in t'
    ensures IsDraftFor(t'[job.nextId + n], job.rows[picks[n]], job.stamp)
  {
    hide DraftFor, IsDraftFor, Chosen;
    var id := job.nextId + n;
    assert id in t' && t'[id] == DraftFor(job, job.rows[picks[n]]);
    DraftForIsDraft(job, job.rows[picks[n]]);
  }

  /** The text of a draft: the step's templates, or the defaults for blank ones, rendered for the lead; the channel in
      lower case. */
  lemma DraftTextMeans(job: Job, row: Row)
    ensures var writer, m := job.writer, DraftFor(job, row);
            && m.channel == Subjects.Lower(writer.locale, row.channel)
            && m.body == writer.render(if row.step.body == "" then writer.defaultBody else row.step.body, row)
            && m.subject == Subjects.SequenceText(
                 writer.locale,
                 writer.render(if row.step.subject == "" then "Rates and media for {sender_company}" else row.step.subject, row),
                 writer.company)
  {
    hide Subjects.SequenceText, Subjects.Lower;
  }

  // ---- The query ------------------------------------------------------------------------------------------

  /** The step row is the membership's next one: an active row of its campaign, numbered one more than its touch count. */
  ghost predicate IsNext(tables: Joined, key: (int, int), id: int) {
    && key in tables.members && id in tables.steps
    && tables.steps[id].campaign == key.0 && tables.steps[id].number == tables.members[key].emailsSent + 1
  }

  /** A membership is answered if and only if its campaign is active and belongs, like its lead, to the organization asked
      for; the lead has not opted out, answered or booked a meeting; fewer touches than the campaign allows were made; and
      its next step has a row that is active. */
  lemma EligibleMeans(tables: Joined, key: (int, int), campaign: Option<int>, org: Option<int>)
    requires UniqueNumbers(tables.steps)
    ensures Eligible(tables, key, campaign, org)
            <==> && key in tables.members && key.0 in tables.campaigns && key.1 in tables.contacts
                 && (exists id :: IsNext(tables, key, id) && tables.steps[id].active)
                 && tables.campaigns[key.0].active && tables.members[key].emailsSent < tables.campaigns[key.0].maxEmails
                 && !tables.contacts[key.1].optOut && tables.contacts[key.1].status != "OPTED_OUT"
                 && !tables.members[key].responded && !tables.members[key].meetingBooked
                 && (campaign.None? || campaign == Some(key.0))
                 && (org.None? || (org == Some(tables.campaigns[key.0].org) && org == Some(tables.contacts[key.1].org)))
  {
    NextIsStepOf(tables, key);
  }

  lemma NextIsStepOf(tables: Joined, key: (int, int))
    requires UniqueNumbers(tables.steps)
    ensures forall id :: IsNext(tables, key, id) <==> StepOf(tables, key) == Some(id)
  {
    if key in tables.members {
      var number := tables.members[key].emailsSent + 1;
      var ids := set id | id in tables.steps && tables.steps[id].campaign == key.0 && tables.steps[id].number == number;
      forall id | IsNext(tables, key, id)
        ensures StepOf(tables, key) == Some(id)
      {
        assert id in ids;
        assert SameStep(tables.steps[id], tables.steps[Least(ids)]);
      }
    }
  }

  /** A row of the query is its membership's next step, on the channel of the step's definition, or email without one. */
  lemma RowMeans(tables: Joined, key: (int, int))
    requires UniqueNumbers(tables.steps) && Eligible(tables, key, None, None)
    ensures var row := RowOf(tables, key);
            && row.campaign == key.0 && row.lead == key.1 && row.org == tables.campaigns[key.0].org
            && IsNext(tables, key, row.stepId) && row.step == tables.steps[row.stepId]
            && row.lastContacted == tables.contacts[key.1].lastContacted
            && var defined := (key.0, tables.members[key].emailsSent + 1);
               && (defined in tables.defs ==> row.channel == tables.defs[defined].channel)
               && (defined !in tables.defs ==> row.channel == "email")
  {
    NextIsStepOf(tables, key);
    assert IsNext(tables, key, RowOf(tables, key).stepId);
  }

  // ---- Generating again ----------------------------------------------------------------------------------

  /** The draft is there and still stands for its step: not rejected and not failed. */
  predicate Stands(t: Table, id: int) { id in t && t[id].status != Rejected && t[id].status != Failed }

  /** Statuses a draft can have later on. */
  predicate Usual(status: Status) {
    status == Draft || status == Scheduled || status == Sending || status == Sent || status == Rejected || status == Failed
  }

  lemma StepKeepsStep(cfg: Config, s: World, step: Step, id: int)
    requires Enabled(cfg, s, step) && id < s.nextId && id in After(cfg, s, step).messages
    ensures id < After(cfg, s, step).nextId && id in s.messages && SameTouch(s.messages[id], After(cfg, s, step).messages[id])
    ensures Usual(s.messages[id].status) ==> Usual(After(cfg, s, step).messages[id].status)
  {
  }

  /** In any run a message stays the touch it is, with one of the usual statuses. */
  lemma {:induction false} RunKeepsStep(cfg: Config, states: seq<World>, steps: seq<Step>, id: int, k: nat)
    requires IsRun(cfg, states, steps) && k < |states|
    requires id in states[0].messages && id < states[0].nextId && Usual(states[0].messages[id].status)
    ensures id < states[k].nextId
    ensures id in states[k].messages ==>
              SameTouch(states[0].messages[id], states[k].messages[id]) && Usual(states[k].messages[id].status)
  {
    hide Enabled, After, Usual;
    if k > 0 {
      RunKeepsStep(cfg, states, steps, id, k - 1);
      assert Takes(cfg, states[k - 1], steps[k - 1], states[k]);
      NextIdGrows(cfg, states[k - 1], steps[k - 1]);
      if id in states[k].messages {
        StepKeepsStep(cfg, states[k - 1], steps[k - 1], id);
      }
    }
  }

  lemma NextIdGrows(cfg: Config, s: World, step: Step)
    requires Enabled(cfg, s, step)
    ensures s.nextId <= After(cfg, s, step).nextId
  {
  }

  /** Whatever the draft service, its workers and its users do in between, a row that got a draft gets no second one at
      any later time, as long as its draft is not rejected, failed or deleted. Generating for just these rows
      inserts nothing. */
  lemma GeneratingAgainLater(
      job: Job, picks: seq<nat>, cfg: Config, states: seq<World>, steps: seq<Step>, again: Job, picks': seq<nat>, t': Table)
    requires |states| > 0 && Generated(job, |job.rows|, picks, states[0].messages)
    requires states[0].nextId == job.nextId + |picks| && IsRun(cfg, states, steps)
    requires forall id :: job.nextId <= id < job.nextId + |picks| ==> Stands(states[|steps|].messages, id)
    requires again.table == states[|steps|].messages && again.rows == job.rows
    requires Generated(again, |again.rows|, picks', t')
    ensures forall i :: i in picks ==> i !in picks'
    ensures (forall i: nat :: i < |job.rows| ==> i in picks) ==> picks' == [] && t' == again.table
  {
    hide Inserts, Enabled, After, Generated, SameTouch, Takes, Usual;
    forall i | i in picks
      ensures i !in picks'
    {
      var n :| 0 <= n < |picks| && picks[n] == i;
      DraftMeans(job, picks, states[0].messages, n);
      DraftIsUsual(states[0].messages[job.nextId + n], job.rows[i], job.stamp);
      RunKeepsStep(cfg, states, steps, job.nextId + n, |steps|);
      DraftCovers(states[0].messages[job.nextId + n], again.table, job.nextId + n, job.rows[i]);
      CoveredIsNotPicked(again, picks', t', i);
    }
    if forall i: nat :: i < |job.rows| ==> i in picks {
      if picks' != [] {
        var i := FirstPick(again, picks', t');
        assert false;
      }
      NoPicksNoChange(again, picks', t');
    }
  }

  lemma FirstPick(job: Job, picks: seq<nat>, t': Table) returns (i: nat)
    requires Generated(job, |job.rows|, picks, t') && picks != []
    ensures i < |job.rows| && i in picks
  {
    i := picks[0];
  }

  lemma NoPicksNoChange(job: Job, picks: seq<nat>, t': Table)
    requires Generated(job, |job.rows|, picks, t') && picks == []
    ensures t' == job.table
  {
    SameEntriesSameTable(job.table, t');
  }

  lemma DraftIsUsual(m: Message, row: Row, stamp: int)
    requires IsDraftFor(m, row, stamp)
    ensures Usual(m.status) && ForStep(m, row)
  {
  }

  lemma CoveredIsNotPicked(job: Job, picks: seq<nat>, t': Table, i: nat)
    requires Generated(job, |job.rows|, picks, t') && i < |job.rows| && Covered(job.table, job.rows[i])
    ensures i !in picks
  {
    hide Inserts, Covered;
    InsertsMeans(job.table, job.rows[i], job.now, job.ignoreDelay);
  }

  lemma DraftCovers(m: Message, t: Table, id: int, row: Row)
    requires ForStep(m, row) && Stands(t, id) && SameTouch(m, t[id]) && Usual(t[id].status)
    ensures Covered(t, row)
  {
    assert ForStep(t[id], row);
  }
}

/** Follow-up drafts: the listing that only reads, and the loop that inserts drafts as it goes. */
module Followups {
  import opened Common
  import opened Messages
  import opened Steps
  import opened Outreach
  import Subjects

  /** Instants are in microseconds here. */
  const DAY_MICROS := 86_400_000_000

  datatype Campaign = Campaign(org: int, active: bool, maxEmails: int)

  datatype Contact = Contact(org: int, optOut: bool, status: string, lastContacted: Option<int>)

  /** The tables the query joins; `members` and `defs` have their primary keys as in Outreach.Db. */
  datatype Joined = Joined(
    campaigns: map<int, Campaign>,
    contacts: map<int, Contact>,
    members: map<(int, int), Member>,
    defs: map<(int, int), Definition>,
    steps: StepTable)

  /** The step row a membership is due for. */
  function StepOf(tables: Joined, key: (int, int)): Option<int> {
    if key in tables.members then LinkOf(tables.steps, key.0, tables.members[key].emailsSent + 1) else None
  }

  /** The query's joins and conditions. */
  predicate Eligible(tables: Joined, key: (int, int), campaign: Option<int>, org: Option<int>) {
    && key in tables.members && key.0 in tables.campaigns && key.1 in tables.contacts && StepOf(tables, key).Some?
    && var member, c, lead := tables.members[key], tables.campaigns[key.0], tables.contacts[key.1];
       && c.active && tables.steps[StepOf(tables, key).value].active
       && !lead.optOut && lead.status != "OPTED_OUT" && !member.responded && !member.meetingBooked
       && member.emailsSent < c.maxEmails
       && (campaign.Some? ==> key.0 == campaign.value)
       && (org.Some? ==> c.org == org.value && lead.org == org.value)
  }

  /** One row of the query. */
  datatype Row = Row(org: int, campaign: int, lead: int, stepId: int, step: StepRow, lastContacted: Option<int>, channel: string)

  function RowOf(tables: Joined, key: (int, int)): Row
    requires Eligible(tables, key, None, None)
  {
    var id := StepOf(tables, key).value;
    var number := tables.steps[id].number;
    Row(tables.campaigns[key.0].org, key.0, key.1, id, tables.steps[id], tables.contacts[key.1].lastContacted,
        if (key.0, number) in tables.defs then tables.defs[(key.0, number)].channel else "email")
  }

  /** What the query may answer: eligible memberships within the limit, each at most once. */
  ghost predicate Answers(tables: Joined, keys: seq<(int, int)>, limit: nat, campaign: Option<int>, org: Option<int>) {
    |keys| <= limit && Distinct(keys) && forall key :: key in keys ==> Eligible(tables, key, campaign, org)
  }

  function Rows(tables: Joined, keys: seq<(int, int)>): (rows: seq<Row>)
    requires forall key :: key in keys ==> Eligible(tables, key, None, None)
    ensures |rows| == |keys|
  {
    seq(|keys|, i requires 0 <= i < |keys| => RowOf(tables, keys[i]))
  }

  lemma AnswersAreRows(tables: Joined, keys: seq<(int, int)>, limit: nat, campaign: Option<int>, org: Option<int>)
    requires Answers(tables, keys, limit, campaign, org)
    ensures forall key :: key in keys ==> Eligible(tables, key, None, None)
  {
  }

  // ---- One row's decision --------------------------------------------------------------------------

  predicate Blocks(m: Message, row: Row) {
    && m.lead == row.lead && m.campaign == Some(row.campaign) && m.stepId == Some(row.stepId)
    && m.outbound && m.status in {Draft, Scheduled, Sending, Sent}
  }

  predicate HasDuplicate(t: Table, row: Row) { exists id :: id in t && Blocks(t[id], row) }

  /** The generating loop's first test. */
  predicate TooEarly(row: Row, now: int, ignoreDelay: bool) {
    !ignoreDelay && (row.lastContacted.None? || now - row.lastContacted.value < row.step.delayDays * DAY_MICROS)
  }

  predicate Inserts(t: Table, row: Row, now: int, ignoreDelay: bool) {
    !TooEarly(row, now, ignoreDelay) && !HasDuplicate(t, row)
  }

  datatype BlockedReason = ExistingDraftOrSent | MissingLastContacted

  /** What the listing says of a row. */
  datatype Listed = Listed(dueAt: Option<int>, delayIgnored: bool, isDue: bool, blocked: Option<BlockedReason>)

  function List(t: Table, row: Row, now: int, ignoreDelay: bool): Listed {
    var duplicate := HasDuplicate(t, row);
    var dueAt := if row.lastContacted.Some? then Some(row.lastContacted.value + row.step.delayDays * DAY_MICROS) else None;
    var normallyDue := dueAt.Some? && dueAt.value <= now;
    Listed(dueAt, ignoreDelay && dueAt.Some? && dueAt.value > now && !duplicate, (normallyDue || ignoreDelay) && !duplicate,
           if duplicate then Some(ExistingDraftOrSent)
           else if !ignoreDelay && row.lastContacted.None? then Some(MissingLastContacted)
           else None)
  }

  function DueCount(listed: seq<Listed>): nat {
    if listed == [] then 0 else DueCount(listed[..|listed| - 1]) + if listed[|listed| - 1].isDue then 1 else 0
  }

  // ---- The whole loop -------------------------------------------------------------------------------

  /** What every generated text depends on besides the row: the renderer, the locale and the sender. */
  datatype Writer = Writer(render: (string, Row) -> string, locale: Subjects.Locale, company: string, defaultBody: string)

  const DEFAULT_SUBJECT := "Rates and media for {sender_company}"

  function Or(text: string, default: string): string { if text == "" then default else text }

  function DraftSubject(writer: Writer, row: Row): string {
    var rendered := writer.render(Or(row.step.subject, DEFAULT_SUBJECT), row);
    Subjects.SequenceText(writer.locale, rendered, writer.company)
  }

  function DraftOf(writer: Writer, row: Row, stamp: int): Message {
    Message(row.org, row.lead, Some(row.campaign), Some(row.stepId), true, Subjects.Lower(writer.locale, row.channel),
            DraftSubject(writer, row), writer.render(Or(row.step.body, writer.defaultBody), row), Draft, 0,
            None, None, None, None, 0, None, stamp, None)
  }

  /** Two rows that stand for the same step of the same lead. */
  predicate SameKey(a: Row, b: Row) { a.lead == b.lead && a.campaign == b.campaign && a.stepId == b.stepId }

  /** One pass over the rows of a query: the table and the next id it starts with, and its settings. */
  datatype Job = Job(table: Table, nextId: int, rows: seq<Row>, now: int, ignoreDelay: bool, writer: Writer, stamp: int)

  /** The row is due in a table. */
  predicate InsertsIn(job: Job, t: Table, row: Row) { Inserts(t, row, job.now, job.ignoreDelay) }

  function DraftFor(job: Job, row: Row): Message { DraftOf(job.writer, row, job.stamp) }

  ghost predicate IdsKnown(t: Table, nextId: int) { forall id :: id in t ==> id < nextId }

  /** The first row of its key that is due in the table the loop starts with. */
  ghost predicate Chosen(job: Job, i: nat)
    requires i < |job.rows|
  {
    && InsertsIn(job, job.table, job.rows[i])
    && forall j :: 0 <= j < i && InsertsIn(job, job.table, job.rows[j]) ==> !SameKey(job.rows[j], job.rows[i])
  }

  /** The first `k` rows done: one draft, under the next id, for each chosen row, and nothing else. */
  ghost predicate Generated(job: Job, k: nat, picks: seq<nat>, t': Table)
    requires k <= |job.rows|
  {
    var nextId := job.nextId;
    && (forall n, m :: 0 <= n < m < |picks| ==> picks[n] < picks[m])
    && (forall i: nat :: i < |job.rows| ==> (i in picks <==> i < k && Chosen(job, i)))
    && (forall n :: 0 <= n < |picks| ==> picks[n] < k)
    && (forall id :: id in t' <==> id in job.table || nextId <= id < nextId + |picks|)
    && (forall id :: id in job.table ==> t'[id] == job.table[id])
    && (forall id :: nextId <= id < nextId + |picks| ==> t'[id] == DraftFor(job, job.rows[picks[id - nextId]]))
  }

  /** Some row up to this one with the same key is chosen. */
  lemma {:induction false} FirstOfItsKey(job: Job, i: nat) returns (j: nat)
    requires i < |job.rows| && InsertsIn(job, job.table, job.rows[i])
    ensures j <= i && SameKey(job.rows[j], job.rows[i]) && Chosen(job, j)
    decreases i
  {
    j := i;
    if !Chosen(job, i) {
      var earlier :| 0 <= earlier < i && InsertsIn(job, job.table, job.rows[earlier]) && SameKey(job.rows[earlier], job.rows[i]);
      j := FirstOfItsKey(job, earlier);
    }
  }

  lemma DraftBlocksItsKey(job: Job, row: Row, other: Row)
    ensures Blocks(DraftFor(job, row), other) <==> SameKey(row, other)
  {
  }

  /** In the table the loop has reached, the next row finds no duplicate exactly when it is chosen. */
  lemma NextRowDecision(job: Job, k: nat, picks: seq<nat>, t': Table)
    requires k < |job.rows| && IdsKnown(job.table, job.nextId)
    requires Generated(job, k, picks, t')
    ensures InsertsIn(job, t', job.rows[k]) <==> Chosen(job, k)
  {
    hide DraftFor, TooEarly, Blocks;
    var t, rows := job.table, job.rows;
    if Chosen(job, k) {
      forall id | id in t'
        ensures !Blocks(t'[id], rows[k])
      {
        if id !in t {
          var i := picks[id - job.nextId];
          assert i in picks;
          DraftBlocksItsKey(job, rows[i], rows[k]);
        }
      }
    } else if InsertsIn(job, t, rows[k]) {
      var j := FirstOfItsKey(job, k);
      assert j in picks;
      var n :| 0 <= n < |picks| && picks[n] == j;
      DraftBlocksItsKey(job, rows[j], rows[k]);
      assert Blocks(t'[job.nextId + n], rows[k]);
    } else if HasDuplicate(t, rows[k]) {
      var id :| id in t && Blocks(t[id], rows[k]);
      assert Blocks(t'[id], rows[k]);
    }
  }

  lemma NothingGeneratedYet(job: Job)
    ensures Generated(job, 0, [], job.table)
  {
  }

  lemma InsertedOneMore(job: Job, k: nat, picks: seq<nat>, t': Table, more: seq<nat>, id: int, draft: Message)
    requires k < |job.rows| && IdsKnown(job.table, job.nextId)
    requires Generated(job, k, picks, t') && Chosen(job, k)
    requires more == picks + [k] && id == job.nextId + |picks| && draft == DraftFor(job, job.rows[k])
    ensures Generated(job, k + 1, more, t'[id := draft])
  {
    hide DraftFor, Chosen;
    assert forall i: nat :: i in more <==> i in picks || i == k;
  }

  lemma SkippedOne(job: Job, k: nat, picks: seq<nat>, t': Table)
    requires k < |job.rows| && Generated(job, k, picks, t') && !Chosen(job, k)
    ensures Generated(job, k + 1, picks, t')
  {
    hide DraftFor, Chosen;
  }

  lemma AfterInsert(job: Job, k: nat, picks: seq<nat>, id: int, t': Table, t'': Table)
    requires k < |job.rows| && IdsKnown(job.table, job.nextId)
    requires Generated(job, k, picks, t') && id == job.nextId + |picks|
    requires Inserts(t', job.rows[k], job.now, job.ignoreDelay)
    requires t'' == t'[id := DraftOf(job.writer, job.rows[k], job.stamp)]
    ensures Generated(job, k + 1, picks + [k], t'')
  {
    hide DraftOf, Inserts, Generated, Chosen;
    NextRowDecision(job, k, picks, t');
    InsertedOneMore(job, k, picks, t', picks + [k], id, DraftFor(job, job.rows[k]));
  }

  lemma AfterSkip(job: Job, k: nat, picks: seq<nat>, t': Table)
    requires k < |job.rows| && IdsKnown(job.table, job.nextId)
    requires Generated(job, k, picks, t') && !Inserts(t', job.rows[k], job.now, job.ignoreDelay)
    ensures Generated(job, k + 1, picks, t')
  {
    hide DraftOf, Inserts, Generated, Chosen;
    NextRowDecision(job, k, picks, t');
    SkippedOne(job, k, picks, t');
  }

  lemma GeneratedIdsAreKnown(job: Job, k: nat, picks: seq<nat>, t': Table)
    requires k <= |job.rows| && Generated(job, k, picks, t') && IdsKnown(job.table, job.nextId)
    ensures IdsKnown(t', job.nextId + |picks|)
  {
  }

  // ---- Preview and generation -------------------------------------------------------------------------

  /** Row `i` is listed as due. */
  ghost predicate DueInListing(job: Job, i: nat)
    requires i < |job.rows|
  {
    List(job.table, job.rows[i], job.now, job.ignoreDelay).isDue
  }

  /** Rows that are due have different keys. */
  ghost predicate DueKeysDiffer(job: Job) {
    forall i: nat, j: nat :: i < j < |job.rows| && DueInListing(job, i) && DueInListing(job, j) ==> !SameKey(job.rows[i], job.rows[j])
  }

  lemma DueMeansInserts(job: Job, i: nat)
    requires i < |job.rows|
    ensures DueInListing(job, i) <==> InsertsIn(job, job.table, job.rows[i])
  {
  }

  /** Preview equals generation: the rows listed as due are exactly those the loop inserts a draft for, if
      and only if no two due rows stand for the same step of the same lead. */
  lemma PreviewIsGeneration(job: Job, picks: seq<nat>, t': Table)
    requires Generated(job, |job.rows|, picks, t')
    ensures (forall i: nat :: i < |job.rows| ==> (i in picks <==> DueInListing(job, i))) <==> DueKeysDiffer(job)
  {
    hide DueInListing, InsertsIn, SameKey, DraftFor;
    forall i: nat | i < |job.rows|
      ensures DueInListing(job, i) <==> InsertsIn(job, job.table, job.rows[i])
    {
      DueMeansInserts(job, i);
    }
    if forall i: nat :: i < |job.rows| ==> (i in picks <==> DueInListing(job, i)) {
      forall i: nat, j: nat | i < j < |job.rows| && DueInListing(job, i) && DueInListing(job, j)
        ensures !SameKey(job.rows[i], job.rows[j])
      {
        assert j in picks && Chosen(job, j);
      }
    }
  }

  /** The rows of one query always have different keys: memberships are unique per campaign and lead. */
  lemma QueryKeysDiffer(tables: Joined, keys: seq<(int, int)>, limit: nat, campaign: Option<int>, org: Option<int>, i: nat, j: nat)
    requires Answers(tables, keys, limit, campaign, org) && i < j < |keys|
    ensures !SameKey(Rows(tables, keys)[i], Rows(tables, keys)[j])
  {
    assert keys[i] != keys[j];
    assert keys[i].0 != keys[j].0 || keys[i].1 != keys[j].1;
  }

  /** For the rows of one query the listing and the loop agree. */
  lemma ListingAgrees(
      tables: Joined, keys: seq<(int, int)>, limit: nat, campaign: Option<int>, org: Option<int>,
      job: Job, picks: seq<nat>, t': Table)
    requires Answers(tables, keys, limit, campaign, org)
    requires job.rows == Rows(tables, keys) && Generated(job, |job.rows|, picks, t')
    ensures forall i: nat :: i < |keys| ==> (i in picks <==> DueInListing(job, i))
  {
    hide DueInListing, SameKey, DraftFor;
    forall i: nat, j: nat | i < j < |job.rows|
      ensures !SameKey(job.rows[i], job.rows[j])
    {
      QueryKeysDiffer(tables, keys, limit, campaign, org, i, j);
    }
    PreviewIsGeneration(job, picks, t');
  }

  /** An insert never changes the decision about a row with another key. */
  lemma InsertKeepsDecisions(job: Job, t: Table, id: int, row: Row, other: Row)
    requires id !in t
    ensures InsertsIn(job, t[id := DraftFor(job, row)], other) <==> InsertsIn(job, t, other) && !SameKey(row, other)
  {
    hide DraftFor;
    DraftBlocksItsKey(job, row, other);
    var t' := t[id := DraftFor(job, row)];
    if HasDuplicate(t, other) {
      var found :| found in t && Blocks(t[found], other);
      assert Blocks(t'[found], other);
    }
    assert SameKey(row, other) ==> Blocks(t'[id], other);
  }

  lemma SameEntriesSameTable(t: Table, t': Table)
    requires forall id :: id in t' <==> id in t
    requires forall id :: id in t ==> t'[id] == t[id]
    ensures t' == t
  {
    var ids, ids' := t.Keys, t'.Keys;
    assert forall id :: id in ids <==> id in ids';
    assert ids == ids';
    forall id | id in t
      ensures t'[id] == t[id]
    {
    }
  }

  lemma FirstPickIsChosen(job: Job, k: nat, picks: seq<nat>, t': Table)
    requires k <= |job.rows| && Generated(job, k, picks, t') && picks != []
    ensures picks[0] < |job.rows| && Chosen(job, picks[0])
  {
    var i := picks[0];
    assert i in picks;
  }

  /** Generating again for the same rows at the same instant inserts nothing. */
  lemma GeneratingTwice(job: Job, picks: seq<nat>, t': Table, again: Job, picks': seq<nat>, t'': Table)
    requires Generated(job, |job.rows|, picks, t')
    requires again.table == t' && again.rows == job.rows && again.now == job.now && again.ignoreDelay == job.ignoreDelay
    requires Generated(again, |again.rows|, picks', t'')
    ensures picks' == [] && t'' == t'
  {
    hide DraftFor, TooEarly, Blocks;
    var t, rows := job.table, job.rows;
    forall i: nat | i < |rows|
      ensures !InsertsIn(again, t', rows[i])
    {
      if InsertsIn(job, t, rows[i]) {
        var j := FirstOfItsKey(job, i);
        assert j in picks;
        var n :| 0 <= n < |picks| && picks[n] == j;
        DraftBlocksItsKey(job, rows[j], rows[i]);
        assert Blocks(t'[job.nextId + n], rows[i]);
      } else if HasDuplicate(t, rows[i]) {
        var id :| id in t && Blocks(t[id], rows[i]);
        assert Blocks(t'[id], rows[i]);
      }
    }
    if picks' != [] {
      FirstPickIsChosen(again, |rows|, picks', t'');
      assert false;
    }
    assert picks' == [];
    SameEntriesSameTable(t', t'');
  }
}

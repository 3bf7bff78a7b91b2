/** Whole scheduler rounds, one after the other: sweep, claim, send each claimed draft.
    Every round with work to do uses some of it up, so the queue empties. */
module QueueRounds {
  import opened Common
  import opened Messages
  import opened Drafts
  import opened ClaimSelection
  import SchedulerRuns

  /** What the surroundings decide in one round: the clock readings, the drafts the claim query returned,
      and for the k-th of them what the transport answered and when. */
  datatype Round = Round(
    now: int,
    cutoff: int,
    limit: int,
    org: Option<int>,
    actor: string,
    ids: seq<int>,
    answer: nat -> Outcome,
    clock: nat -> int)

  ghost function IdSet(ids: seq<int>): set<int> { set id | id in ids }

  /** The table when the claims are committed. */
  ghost function Claimed(cfg: Config, t: Table, r: Round): Table {
    ClaimRows(Sweep(cfg, t, r.cutoff, r.org), IdSet(r.ids), r.now)
  }

  /** The table after the first `n` claimed drafts were sent, one uninterrupted send after the other. */
  ghost function SendFirst(cfg: Config, t: Table, r: Round, n: nat): Table
    requires n <= |r.ids|
  {
    if n == 0 then t
    else SendOne(cfg, SendFirst(cfg, t, r, n - 1), r.ids[n - 1], r.org, r.actor, r.clock(n - 1), r.answer(n - 1))
  }

  ghost function RoundResult(cfg: Config, t: Table, r: Round): Table {
    SendFirst(cfg, Claimed(cfg, t, r), r, |r.ids|)
  }

  /** How many of the first `n` sends were delivered. */
  function DeliveredCount(answer: nat -> Outcome, n: nat): nat {
    if n == 0 then 0 else DeliveredCount(answer, n - 1) + if answer(n - 1).Delivered? then 1 else 0
  }

  /** The claim query answered for the swept table. */
  ghost predicate RoundPossible(cfg: Config, t: Table, r: Round) {
    EarliestDue(cfg, Sweep(cfg, t, r.cutoff, r.org), r.ids, r.now, SchedulerRuns.BatchLimit(r.limit), r.org)
  }

  /** A claimed row that `send_approved_draft` will find. */
  predicate Ready(cfg: Config, m: Message, org: Option<int>) {
    m.outbound && m.status == Sending && m.approved == 1 && m.attempts < cfg.maxAttempts && Visible(m, org)
  }

  /** The claim moves exactly the chosen rows to SENDING, each ready to send, and nothing else changes. */
  lemma ClaimFrames(cfg: Config, t: Table, r: Round)
    requires RoundPossible(cfg, t, r)
    ensures var swept, claimed := Sweep(cfg, t, r.cutoff, r.org), Claimed(cfg, t, r);
            && claimed.Keys == t.Keys
            && |r.ids| == Min(SchedulerRuns.BatchLimit(r.limit), |DueIds(cfg, swept, r.now, r.org)|)
            && forall id :: id in t ==>
                 if id in r.ids then claimed[id] == ClaimedRow(swept[id], r.now) && Ready(cfg, claimed[id], r.org)
                 else claimed[id] == swept[id]
  {
  }

  /** The work a row stands for: one for being queued and one for each attempt left. */
  function Load(cfg: Config, m: Message): nat {
    if Queued(m.status) then (if m.attempts < cfg.maxAttempts then cfg.maxAttempts - m.attempts else 0) + 1 else 0
  }

  ghost function Loads(cfg: Config, t: Table): map<int, nat> { map id | id in t :: Load(cfg, t[id]) }

  ghost function QueueLoad(cfg: Config, t: Table): nat { Total(Loads(cfg, t)) }

  /** One send of a claimed row: only that row changes, it leaves SENDING, and it stands for less work. */
  lemma SendingUsesWork(cfg: Config, t: Table, id: int, org: Option<int>, actor: string, now: int, outcome: Outcome)
    requires id in t && Ready(cfg, t[id], org)
    ensures var t' := SendOne(cfg, t, id, org, actor, now, outcome);
            && t' == t[id := AfterSend(cfg, AttemptStarted(cfg, t[id]), Sending, actor, now, outcome)]
            && Load(cfg, t'[id]) < Load(cfg, t[id]) && t'[id].status != Sending
            && (RowOk(cfg, t[id]) ==> RowOk(cfg, t'[id]))
  {
  }

  /** What the first `n` sends of a batch did: untouched rows are as they were, the others used work up. */
  ghost predicate Progress(cfg: Config, t: Table, t': Table, ids: seq<int>, n: nat)
    requires n <= |ids|
  {
    && t'.Keys == t.Keys
    && (forall id :: id in t && id !in ids[..n] ==> t'[id] == t[id])
    && (forall id :: id in t && id in ids[..n] ==>
          Load(cfg, t'[id]) < Load(cfg, t[id]) && t'[id].status != Sending && (RowOk(cfg, t[id]) ==> RowOk(cfg, t'[id])))
  }

  /** Each send of a batch finds its row as the claim left it and touches no other row. */
  lemma {:induction false} BatchProgress(cfg: Config, t: Table, r: Round, n: nat)
    requires n <= |r.ids| && Distinct(r.ids)
    requires forall id :: id in r.ids ==> id in t && Ready(cfg, t[id], r.org)
    ensures Progress(cfg, t, SendFirst(cfg, t, r, n), r.ids, n)
  {
    if n > 0 {
      BatchProgress(cfg, t, r, n - 1);
      var before, id := SendFirst(cfg, t, r, n - 1), r.ids[n - 1];
      assert r.ids[..n] == r.ids[..n - 1] + [id];
      assert id in r.ids && id !in r.ids[..n - 1];
      SendingUsesWork(cfg, before, id, r.org, r.actor, r.clock(n - 1), r.answer(n - 1));
    }
  }

  /** In a round every claimed draft is found when its turn comes. */
  lemma ClaimedIsFound(cfg: Config, t: Table, r: Round, k: nat)
    requires RoundPossible(cfg, t, r) && k < |r.ids|
    ensures Sendable(SendFirst(cfg, Claimed(cfg, t, r), r, k), r.ids[k], r.org)
  {
    ClaimFrames(cfg, t, r);
    BatchProgress(cfg, Claimed(cfg, t, r), r, k);
    assert r.ids[k] in r.ids && r.ids[k] !in r.ids[..k];
  }

  /** Everything queued is an outbound row this round sees, scheduled by now or claimed long enough ago. */
  ghost predicate Ripe(cfg: Config, t: Table, r: Round) {
    forall id :: id in t && Queued(t[id].status) ==>
      && t[id].outbound && Visible(t[id], r.org)
      && (t[id].status == Scheduled ==> t[id].scheduledAt.Some? && t[id].scheduledAt.value <= r.now)
      && (t[id].status == Sending ==> t[id].claimedAt.Some? && t[id].claimedAt.value <= r.cutoff && t[id].scheduledAt.Some? && t[id].scheduledAt.value <= r.now)
  }

  ghost predicate Empty(t: Table) { forall id :: id in t ==> !Queued(t[id].status) }

  /** Sweeping and claiming keep the row invariant and the work a row stands for, except that a row out
      of attempts leaves the queue. */
  lemma SweepAndClaimRow(cfg: Config, m: Message, r: Round)
    requires RowOk(cfg, m) && cfg.maxAttempts > 0
    ensures var swept := Swept(cfg, m, r.cutoff, r.org);
            && RowOk(cfg, swept)
            && Load(cfg, swept) <= Load(cfg, m)
            && (Exhausted(cfg, m, r.org) ==> Load(cfg, swept) < Load(cfg, m))
            && (Due(cfg, swept, r.now, r.org) ==>
                  RowOk(cfg, ClaimedRow(swept, r.now)) && Load(cfg, ClaimedRow(swept, r.now)) == Load(cfg, swept))
  {
  }

  /** What a round leaves of each row. */
  ghost predicate RoundRow(cfg: Config, m: Message, m': Message, r: Round, taken: bool) {
    && RowOk(cfg, m')
    && Load(cfg, m') <= Load(cfg, m)
    && (Exhausted(cfg, m, r.org) || taken ==> Load(cfg, m') < Load(cfg, m))
  }

  lemma RoundRows(cfg: Config, t: Table, r: Round)
    requires TableOk(cfg, t) && cfg.maxAttempts > 0 && RoundPossible(cfg, t, r)
    ensures RoundResult(cfg, t, r).Keys == t.Keys
    ensures forall id :: id in t ==> RoundRow(cfg, t[id], RoundResult(cfg, t, r)[id], r, id in r.ids)
  {
    var claimed, t' := Claimed(cfg, t, r), RoundResult(cfg, t, r);
    ClaimFrames(cfg, t, r);
    BatchProgress(cfg, claimed, r, |r.ids|);
    assert r.ids[..|r.ids|] == r.ids;
    assert Progress(cfg, claimed, t', r.ids, |r.ids|);
    forall id | id in t
      ensures RoundRow(cfg, t[id], t'[id], r, id in r.ids)
    {
      SweepAndClaimRow(cfg, t[id], r);
      assert id in r.ids ==> id in DueIds(cfg, Sweep(cfg, t, r.cutoff, r.org), r.now, r.org);
    }
  }

  /** With everything ripe, a queued row is out of attempts or the claim query returns something. */
  lemma RipeRoundActs(cfg: Config, t: Table, r: Round, id: int)
    requires TableOk(cfg, t) && RoundPossible(cfg, t, r) && Ripe(cfg, t, r)
    requires id in t && Queued(t[id].status) && !Exhausted(cfg, t[id], r.org)
    ensures r.ids != [] && r.ids[0] in t
  {
    var swept := Sweep(cfg, t, r.cutoff, r.org);
    assert id in DueIds(cfg, swept, r.now, r.org);
    assert |DueIds(cfg, swept, r.now, r.org)| > 0;
    var first := r.ids[0];
    assert first in r.ids;
    assert first in DueIds(cfg, swept, r.now, r.org);
  }

  /** A round keeps the lifecycle invariant and never adds work; with everything ripe it uses work up. */
  lemma RoundDrains(cfg: Config, t: Table, r: Round)
    requires TableOk(cfg, t) && cfg.maxAttempts > 0 && RoundPossible(cfg, t, r)
    ensures TableOk(cfg, RoundResult(cfg, t, r))
    ensures QueueLoad(cfg, RoundResult(cfg, t, r)) <= QueueLoad(cfg, t)
    ensures Ripe(cfg, t, r) && !Empty(t) ==> QueueLoad(cfg, RoundResult(cfg, t, r)) < QueueLoad(cfg, t)
  {
    var t' := RoundResult(cfg, t, r);
    RoundRows(cfg, t, r);
    assert Below(Loads(cfg, t'), Loads(cfg, t));
    TotalMonotone(Loads(cfg, t'), Loads(cfg, t));
    if id :| id in t && Queued(t[id].status) && Ripe(cfg, t, r) {
      var lowered := id;
      if !Exhausted(cfg, t[id], r.org) {
        RipeRoundActs(cfg, t, r, id);
        lowered := r.ids[0];
      }
      TotalDrops(Loads(cfg, t'), Loads(cfg, t), lowered, 1);
    }
  }

  /** The tables between rounds, each late enough that everything queued is ripe. */
  ghost predicate RipeRounds(cfg: Config, tables: seq<Table>, rounds: seq<Round>) {
    && |tables| == |rounds| + 1
    && forall k :: 0 <= k < |rounds| ==>
         && RoundPossible(cfg, tables[k], rounds[k]) && Ripe(cfg, tables[k], rounds[k])
         && tables[k + 1] == RoundResult(cfg, tables[k], rounds[k])
  }

  lemma LaterRounds(cfg: Config, tables: seq<Table>, rounds: seq<Round>)
    requires RipeRounds(cfg, tables, rounds) && rounds != []
    ensures RipeRounds(cfg, tables[1..], rounds[1..])
  {
    hide RoundPossible, Ripe, RoundResult;
    forall k | 0 <= k < |rounds[1..]|
      ensures RoundPossible(cfg, tables[1..][k], rounds[1..][k]) && Ripe(cfg, tables[1..][k], rounds[1..][k])
      ensures tables[1..][k + 1] == RoundResult(cfg, tables[1..][k], rounds[1..][k])
    {
      assert tables[1..][k] == tables[k + 1] && rounds[1..][k] == rounds[k + 1];
    }
  }

  lemma NoWorkIsEmpty(cfg: Config, t: Table)
    requires QueueLoad(cfg, t) == 0
    ensures Empty(t)
  {
    forall id | id in t
      ensures !Queued(t[id].status)
    {
      TotalWithout(Loads(cfg, t), id);
    }
  }

  /** The queue drains: repeat rounds, each late enough that everything queued is ripe, and after as many
      rounds as there was work at the start nothing is queued any more, whatever the transport answers. */
  lemma {:induction false} QueueEmpties(cfg: Config, tables: seq<Table>, rounds: seq<Round>)
    requires cfg.maxAttempts > 0 && RipeRounds(cfg, tables, rounds)
    requires TableOk(cfg, tables[0])
    requires |rounds| >= QueueLoad(cfg, tables[0])
    ensures Empty(tables[|rounds|])
    decreases |rounds|
  {
    hide QueueLoad, RoundPossible, Ripe, RoundResult, Empty, TableOk;
    if rounds == [] {
      NoWorkIsEmpty(cfg, tables[0]);
    } else {
      RoundDrains(cfg, tables[0], rounds[0]);
      if Empty(tables[0]) {
        StaysEmpty(cfg, tables, rounds, |rounds|);
      } else {
        LaterRounds(cfg, tables, rounds);
        QueueEmpties(cfg, tables[1..], rounds[1..]);
      }
    }
  }

  lemma {:induction false} StaysEmpty(cfg: Config, tables: seq<Table>, rounds: seq<Round>, n: nat)
    requires n <= |rounds| && |tables| == |rounds| + 1
    requires Empty(tables[0])
    requires forall k :: 0 <= k < |rounds| ==>
               RoundPossible(cfg, tables[k], rounds[k]) && tables[k + 1] == RoundResult(cfg, tables[k], rounds[k])
    ensures Empty(tables[n])
  {
    if n > 0 {
      StaysEmpty(cfg, tables, rounds, n - 1);
      ClaimFrames(cfg, tables[n - 1], rounds[n - 1]);
      EmptyQueueClaimsNothing(cfg, tables[n - 1], rounds[n - 1]);
    }
  }

  lemma EmptyQueueClaimsNothing(cfg: Config, t: Table, r: Round)
    requires Empty(t) && RoundPossible(cfg, t, r)
    ensures r.ids == []
  {
    var due, none: set<int> := DueIds(cfg, Sweep(cfg, t, r.cutoff, r.org), r.now, r.org), {};
    assert forall id :: id in due <==> id in none;
  }
}

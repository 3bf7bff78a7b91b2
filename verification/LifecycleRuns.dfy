/** What every reachable state keeps when sends do not overlap with other decisions about the same
    message: the row invariant of the draft lifecycle, absorbing statuses, and a queue that drains. */
module LifecycleRuns {
  import opened Common
  import opened Messages
  import opened Drafts
  import opened SchedulerRuns

  // ---- One message ---------------------------------------------------------------------------

  /** An attempt begun on a row that has none left, or takes the last one of a row that is not claimed. */
  predicate BreaksAttempts(cfg: Config, s: World, step: Step, id: int) {
    && step.Begin? && AttemptMade(s, step, id) && id in s.messages
    && var m := s.messages[id];
       (m.status == Sending && m.attempts >= cfg.maxAttempts) || (m.status == Scheduled && m.attempts + 1 >= cfg.maxAttempts)
  }

  /** A failure reported by a scheduler worker, with attempts left, for a row without a full approval: the
      retry puts the row back into the queue. */
  predicate BreaksApproval(cfg: Config, s: World, step: Step, id: int) {
    && step.End? && step.w in s.workers && Calling(s.workers[step.w]) && s.workers[step.w].todo[0] == id
    && id in s.messages && Queued(s.workers[step.w].read.value)
    && step.outcome.NotDelivered? && !SafetyContentBlock(step.outcome.error)
    && var m := s.messages[id];
       m.attempts < cfg.maxAttempts && !(m.approved == 1 && m.approvedBy.Some? && m.approvedAt.Some?)
  }

  predicate Breaks(cfg: Config, s: World, step: Step, id: int) {
    BreaksAttempts(cfg, s, step, id) || BreaksApproval(cfg, s, step, id)
  }

  /** Exactly when a step breaks the row invariant of a message, in any state at all. */
  lemma InvariantBreaksExactly(cfg: Config, s: World, step: Step, id: int)
    requires Enabled(cfg, s, step) && cfg.maxAttempts > 0
    requires id in s.messages && RowOk(cfg, s.messages[id]) && id in After(cfg, s, step).messages
    ensures !RowOk(cfg, After(cfg, s, step).messages[id]) <==> Breaks(cfg, s, step, id)
  {
  }

  lemma NewRowsAreOk(cfg: Config, s: World, step: Step, id: int)
    requires Enabled(cfg, s, step) && id !in s.messages && id in After(cfg, s, step).messages
    ensures RowOk(cfg, After(cfg, s, step).messages[id])
  {
  }

  /** The lifecycle invariant of one message holds in every state of every run without such a step for this
      message, whatever the other messages go through. */
  lemma {:induction false} RowStaysOk(cfg: Config, states: seq<World>, steps: seq<Step>, id: int, k: nat)
    requires IsRun(cfg, states, steps) && cfg.maxAttempts > 0 && k < |states|
    requires id in states[0].messages ==> RowOk(cfg, states[0].messages[id])
    requires forall i :: 0 <= i < k ==> !Breaks(cfg, states[i], steps[i], id)
    ensures id in states[k].messages ==> RowOk(cfg, states[k].messages[id])
  {
    hide RowOk, Enabled, After, Breaks;
    if k > 0 {
      RowStaysOk(cfg, states, steps, id, k - 1);
      assert Takes(cfg, states[k - 1], steps[k - 1], states[k]);
      if id in states[k].messages {
        if id in states[k - 1].messages {
          InvariantBreaksExactly(cfg, states[k - 1], steps[k - 1], id);
        } else {
          NewRowsAreOk(cfg, states[k - 1], steps[k - 1], id);
        }
      }
    }
  }

  // ---- The lifecycle invariant --------------------------------------------------------------

  /** Some live process still has `id` to send. */
  predicate Has(s: World, w: int, id: int) { w in s.workers && id in s.workers[w].todo }

  /** Sends do not overlap with other decisions about the same message: nobody approves, rejects, deletes
      or marks as sent a message that a live process is still sending. */
  ghost predicate Undisturbed(cfg: Config, s: World, step: Step) {
    && Orderly(cfg, s, step)
    && (step.Approve? || step.Reject? || step.ApproveNow? || step.Delete? || step.MarkAsSent? ==>
          forall w :: !Has(s, w, step.id))
  }

  /** What is known of message `i` of a live batch. A pause sweep may have taken a last attempt back. */
  ghost predicate InFlight(cfg: Config, s: World, worker: Worker, i: nat)
    requires i < |worker.todo|
  {
    var id := worker.todo[i];
    && id in s.messages
    && var m := s.messages[id];
       if !worker.scheduler then
         i == 0 && worker.read == Some(Draft) && m.status == Draft
       else if i == 0 && worker.read.Some? then
         && worker.read == Some(Sending)
         && (m.status == Sending || (m.status == Draft && m.attempts >= cfg.maxAttempts))
         && (m.status == Sending ==> m.claimedAt == Some(worker.since))
       else
         m.status == Sending && m.claimedAt == Some(worker.since) && m.attempts < cfg.maxAttempts
  }

  /** Every message of every batch is in flight, and no two batches share one. */
  ghost predicate BatchesSteady(cfg: Config, s: World) {
    && (forall w, v, id :: Has(s, w, id) && Has(s, v, id) ==> w == v)
    && (forall w :: w in s.workers ==> Distinct(s.workers[w].todo))
    && (forall w, i :: w in s.workers && 0 <= i < |s.workers[w].todo| ==> InFlight(cfg, s, s.workers[w], i))
  }

  ghost predicate Steady(cfg: Config, s: World) {
    TableOk(cfg, s.messages) && (forall id :: id in s.messages ==> id < s.nextId) && BatchesSteady(cfg, s)
  }

  /** What remains of every batch is a suffix of what remained before. */
  ghost predicate Shrinks(s: World, s': World) {
    forall w :: w in s'.workers ==>
      && w in s.workers
      && (s'.workers[w].todo == s.workers[w].todo
          || (|s.workers[w].todo| > 0 && s'.workers[w].todo == s.workers[w].todo[1..]))
  }

  lemma ShrinkingKeepsDisjoint(s: World, s': World)
    requires forall w, v, id :: Has(s, w, id) && Has(s, v, id) ==> w == v
    requires forall w :: w in s.workers ==> Distinct(s.workers[w].todo)
    requires Shrinks(s, s')
    ensures forall w, v, id :: Has(s', w, id) && Has(s', v, id) ==> w == v
    ensures forall w :: w in s'.workers ==> Distinct(s'.workers[w].todo)
  {
    forall w, v, id | Has(s', w, id) && Has(s', v, id)
      ensures w == v
    {
      assert Has(s, w, id) && Has(s, v, id);
    }
  }

  /** In a steady state no step breaks the row invariant. */
  lemma SteadyIsUnbroken(cfg: Config, s: World, step: Step, id: int)
    requires Steady(cfg, s) && Enabled(cfg, s, step)
    ensures !Breaks(cfg, s, step, id)
  {
    hide RowOk;
    if (step.Begin? || step.End?) && s.workers[step.w].todo[0] == id {
      assert InFlight(cfg, s, s.workers[step.w], 0);
      assert id in s.messages && RowOk(cfg, s.messages[id]);
      QueuedRowIsApproved(cfg, s.messages[id]);
    }
  }

  lemma QueuedRowIsApproved(cfg: Config, m: Message)
    requires RowOk(cfg, m)
    ensures Queued(m.status) ==> m.approved == 1 && m.approvedBy.Some? && m.approvedAt.Some?
  {
  }

  lemma StepKeepsTable(cfg: Config, s: World, step: Step)
    requires Steady(cfg, s) && Enabled(cfg, s, step) && cfg.maxAttempts > 0
    ensures TableOk(cfg, After(cfg, s, step).messages)
  {
    hide RowOk, Enabled, After, Breaks;
    forall id | id in After(cfg, s, step).messages
      ensures RowOk(cfg, After(cfg, s, step).messages[id])
    {
      if id in s.messages {
        SteadyIsUnbroken(cfg, s, step, id);
        InvariantBreaksExactly(cfg, s, step, id);
      } else {
        NewRowsAreOk(cfg, s, step, id);
      }
    }
  }

  // ---- What becomes of the batches ---------------------------------------------------------------

  lemma DecisionKeepsBatches(cfg: Config, s: World, step: Step)
    requires Steady(cfg, s) && Enabled(cfg, s, step) && Undisturbed(cfg, s, step)
    requires !step.StartBatch? && !step.Begin? && !step.End? && !step.ApproveNow?
    ensures BatchesSteady(cfg, After(cfg, s, step))
  {
    hide RowOk;
    var s' := After(cfg, s, step);
    ShrinkingKeepsDisjoint(s, s');
    forall w, i | w in s'.workers && 0 <= i < |s'.workers[w].todo|
      ensures InFlight(cfg, s', s'.workers[w], i)
    {
      assert InFlight(cfg, s, s.workers[w], i);
      assert Has(s, w, s.workers[w].todo[i]);
    }
  }

  lemma ApproveNowKeepsBatches(cfg: Config, s: World, step: Step)
    requires Steady(cfg, s) && Enabled(cfg, s, step) && Undisturbed(cfg, s, step) && step.ApproveNow?
    ensures BatchesSteady(cfg, After(cfg, s, step))
  {
    hide RowOk;
    var s' := After(cfg, s, step);
    if s' != s {
      forall w, v, id | Has(s', w, id) && Has(s', v, id)
        ensures w == v
      {
        assert w != step.w ==> Has(s, w, id);
        assert v != step.w ==> Has(s, v, id);
      }
      forall w, i | w in s'.workers && 0 <= i < |s'.workers[w].todo|
        ensures InFlight(cfg, s', s'.workers[w], i)
      {
        if w != step.w {
          assert InFlight(cfg, s, s.workers[w], i);
          assert Has(s, w, s.workers[w].todo[i]);
        }
      }
    }
  }

  /** A send touches the sender's first message only; the messages of the other processes stay in flight. */
  lemma SendKeepsOthers(cfg: Config, s: World, step: Step, v: int, i: nat)
    requires Steady(cfg, s) && Enabled(cfg, s, step) && (step.Begin? || step.End?)
    requires v in s.workers && v != step.w && i < |s.workers[v].todo|
    ensures var s' := After(cfg, s, step);
            v in s'.workers && s'.workers[v] == s.workers[v] && InFlight(cfg, s', s.workers[v], i)
  {
    hide RowOk;
    assert InFlight(cfg, s, s.workers[v], i);
    assert Has(s, step.w, s.workers[step.w].todo[0]) && Has(s, v, s.workers[v].todo[i]);
  }

  lemma BeginKeepsSender(cfg: Config, s: World, w: int, i: nat)
    requires Steady(cfg, s) && Enabled(cfg, s, Begin(w))
    requires i < |After(cfg, s, Begin(w)).workers[w].todo|
    ensures InFlight(cfg, After(cfg, s, Begin(w)), After(cfg, s, Begin(w)).workers[w], i)
  {
    hide RowOk;
    var s' := After(cfg, s, Begin(w));
    assert InFlight(cfg, s, s.workers[w], 0);
    if |s'.workers[w].todo| < |s.workers[w].todo| {
      assert InFlight(cfg, s, s.workers[w], i + 1);
    } else {
      assert InFlight(cfg, s, s.workers[w], i);
    }
  }

  lemma EndKeepsSender(cfg: Config, s: World, w: int, outcome: Outcome, i: nat)
    requires Steady(cfg, s) && Enabled(cfg, s, End(w, outcome))
    requires i < |After(cfg, s, End(w, outcome)).workers[w].todo|
    ensures InFlight(cfg, After(cfg, s, End(w, outcome)), After(cfg, s, End(w, outcome)).workers[w], i)
  {
    hide RowOk;
    assert InFlight(cfg, s, s.workers[w], i + 1);
    assert s.workers[w].todo[i + 1] != s.workers[w].todo[0];
  }

  lemma SendKeepsBatches(cfg: Config, s: World, step: Step)
    requires Steady(cfg, s) && Enabled(cfg, s, step) && (step.Begin? || step.End?)
    ensures BatchesSteady(cfg, After(cfg, s, step))
  {
    var s' := After(cfg, s, step);
    assert Shrinks(s, s');
    ShrinkingKeepsDisjoint(s, s');
    hide InFlight, RowOk, Sendable, BeginSend, EndSend;
    forall v, i | v in s'.workers && 0 <= i < |s'.workers[v].todo|
      ensures InFlight(cfg, s', s'.workers[v], i)
    {
      if v != step.w {
        SendKeepsOthers(cfg, s, step, v, i);
      } else if step.Begin? {
        BeginKeepsSender(cfg, s, v, i);
      } else {
        EndKeepsSender(cfg, s, v, step.outcome, i);
      }
    }
  }

  lemma StartBatchKeepsFlying(cfg: Config, s: World, step: Step, v: int, i: nat)
    requires Steady(cfg, s) && Enabled(cfg, s, step) && Undisturbed(cfg, s, step) && step.StartBatch?
    requires v in s.workers && i < |s.workers[v].todo|
    ensures var s' := After(cfg, s, step);
            && v in s'.workers && s'.workers[v] == s.workers[v]
            && InFlight(cfg, s', s.workers[v], i) && s.workers[v].todo[i] !in step.picked
  {
    hide RowOk;
    assert InFlight(cfg, s, s.workers[v], i);
  }

  lemma StartBatchKeepsBatches(cfg: Config, s: World, step: Step)
    requires Steady(cfg, s) && Enabled(cfg, s, step) && Undisturbed(cfg, s, step) && step.StartBatch?
    ensures BatchesSteady(cfg, After(cfg, s, step))
  {
    hide RowOk;
    var s' := After(cfg, s, step);
    var ids := set i | 0 <= i < |step.picked| :: step.picked[i];
    forall v, i | v in s'.workers && 0 <= i < |s'.workers[v].todo|
      ensures InFlight(cfg, s', s'.workers[v], i)
    {
      if v == step.w {
        assert step.picked[i] in ids;
      } else {
        StartBatchKeepsFlying(cfg, s, step, v, i);
      }
    }
    forall v, u, id | Has(s', v, id) && Has(s', u, id)
      ensures v == u
    {
      StartBatchKeepsApart(cfg, s, step, v, u, id);
    }
  }

  lemma StartBatchKeepsApart(cfg: Config, s: World, step: Step, v: int, u: int, id: int)
    requires Steady(cfg, s) && Enabled(cfg, s, step) && Undisturbed(cfg, s, step) && step.StartBatch?
    requires Has(After(cfg, s, step), v, id) && Has(After(cfg, s, step), u, id)
    ensures v == u
  {
    hide RowOk, InFlight, Sweep, ClaimRows;
    if v != step.w {
      var i :| 0 <= i < |s.workers[v].todo| && s.workers[v].todo[i] == id;
      StartBatchKeepsFlying(cfg, s, step, v, i);
    }
    if u != step.w {
      var i :| 0 <= i < |s.workers[u].todo| && s.workers[u].todo[i] == id;
      StartBatchKeepsFlying(cfg, s, step, u, i);
    }
    if v != step.w && u != step.w {
      assert Has(s, v, id) && Has(s, u, id);
    }
  }

  // ---- What becomes of the rows ------------------------------------------------------------------

  lemma DecisionSettles(cfg: Config, s: World, step: Step)
    requires TableOk(cfg, s.messages) && Enabled(cfg, s, step)
    requires !step.StartBatch? && !step.Begin? && !step.End? && !step.Outreach?
    ensures Settles(s.messages, After(cfg, s, step).messages)
  {
  }

  lemma SendSettles(cfg: Config, s: World, step: Step)
    requires Steady(cfg, s) && Enabled(cfg, s, step) && (step.Begin? || step.End?)
    ensures Settles(s.messages, After(cfg, s, step).messages)
  {
    hide RowOk;
    assert InFlight(cfg, s, s.workers[step.w], 0);
  }

  lemma StartBatchSettles(cfg: Config, s: World, step: Step)
    requires Enabled(cfg, s, step) && step.StartBatch?
    ensures Settles(s.messages, After(cfg, s, step).messages)
  {
  }

  lemma OutreachKeepsSteady(cfg: Config, s: World, step: Step)
    requires Steady(cfg, s) && Enabled(cfg, s, step) && step.Outreach? && cfg.maxAttempts > 0
    ensures Steady(cfg, After(cfg, s, step))
  {
    StepKeepsTable(cfg, s, step);
    OutreachKeepsBatches(cfg, s, step);
    OutreachKeepsIds(cfg, s, step);
  }

  lemma OutreachKeepsIds(cfg: Config, s: World, step: Step)
    requires Enabled(cfg, s, step) && step.Outreach? && forall id :: id in s.messages ==> id < s.nextId
    ensures forall id :: id in After(cfg, s, step).messages ==> id < After(cfg, s, step).nextId
  {
  }

  lemma OutreachKeepsBatches(cfg: Config, s: World, step: Step)
    requires Steady(cfg, s) && Enabled(cfg, s, step) && step.Outreach?
    ensures BatchesSteady(cfg, After(cfg, s, step))
  {
    hide RowOk;
    var s' := After(cfg, s, step);
    ShrinkingKeepsDisjoint(s, s');
    forall w, i | w in s'.workers && 0 <= i < |s'.workers[w].todo|
      ensures InFlight(cfg, s', s'.workers[w], i)
    {
      assert InFlight(cfg, s, s.workers[w], i);
    }
  }

  lemma StepKeepsBatches(cfg: Config, s: World, step: Step)
    requires Steady(cfg, s) && Enabled(cfg, s, step) && Undisturbed(cfg, s, step)
    ensures BatchesSteady(cfg, After(cfg, s, step))
  {
    hide *;
    match step
    case StartBatch(_, _, _, _, _, _, _) => StartBatchKeepsBatches(cfg, s, step);
    case Begin(_) => SendKeepsBatches(cfg, s, step);
    case End(_, _) => SendKeepsBatches(cfg, s, step);
    case ApproveNow(_, _, _, _) => ApproveNowKeepsBatches(cfg, s, step);
    case Outreach(_, _) => OutreachKeepsBatches(cfg, s, step);
    case _ => DecisionKeepsBatches(cfg, s, step);
  }

  lemma StepSettles(cfg: Config, s: World, step: Step)
    requires Steady(cfg, s) && Enabled(cfg, s, step) && !step.Outreach?
    ensures Settles(s.messages, After(cfg, s, step).messages)
  {
    if step.StartBatch? {
      StartBatchSettles(cfg, s, step);
    } else if step.Begin? || step.End? {
      SendSettles(cfg, s, step);
    } else {
      DecisionSettles(cfg, s, step);
    }
  }

  /** The lifecycle invariant is kept by every undisturbed step, and no step but an outreach change
      makes a row appear, un-settle or vanish unless it was an unapproved draft or had failed. */
  lemma StepKeepsSteady(cfg: Config, s: World, step: Step)
    requires Steady(cfg, s) && Enabled(cfg, s, step) && Undisturbed(cfg, s, step) && cfg.maxAttempts > 0
    ensures Steady(cfg, After(cfg, s, step))
    ensures step.Outreach? || Settles(s.messages, After(cfg, s, step).messages)
  {
    hide Undisturbed, TableOk, BatchesSteady, Settles, After, Enabled;
    StepKeepsTable(cfg, s, step);
    StepKeepsBatches(cfg, s, step);
    if step.Outreach? {
      OutreachKeepsIds(cfg, s, step);
    } else {
      StepSettles(cfg, s, step);
      SettledIdsAreKnown(cfg, s, step);
    }
  }

  lemma SettledIdsAreKnown(cfg: Config, s: World, step: Step)
    requires Enabled(cfg, s, step) && !step.Outreach? && Settles(s.messages, After(cfg, s, step).messages)
    requires forall id :: id in s.messages ==> id < s.nextId
    ensures forall id :: id in After(cfg, s, step).messages ==> id < After(cfg, s, step).nextId
  {
  }

  // ---- Whole runs --------------------------------------------------------------------------

  ghost predicate UndisturbedRun(cfg: Config, states: seq<World>, steps: seq<Step>) {
    && IsRun(cfg, states, steps)
    && cfg.maxAttempts > 0
    && Quiet(states[0]) && TableOk(cfg, states[0].messages)
    && forall k :: 0 <= k < |steps| ==> Undisturbed(cfg, states[k], steps[k])
  }

  lemma {:induction false} RunIsSteady(cfg: Config, states: seq<World>, steps: seq<Step>, k: nat)
    requires UndisturbedRun(cfg, states, steps)
    requires k < |states|
    ensures Steady(cfg, states[k])
  {
    hide Steady, Enabled, After, Undisturbed, Quiet, TableOk, Settles;
    if k == 0 {
      QuietIsSteady(cfg, states[0]);
    } else {
      RunIsSteady(cfg, states, steps, k - 1);
      assert Takes(cfg, states[k - 1], steps[k - 1], states[k]);
      StepKeepsSteady(cfg, states[k - 1], steps[k - 1]);
    }
  }

  lemma QuietIsSteady(cfg: Config, s: World)
    requires Quiet(s) && TableOk(cfg, s.messages)
    ensures Steady(cfg, s)
  {
  }

  /** The lifecycle invariant holds of every row in every state of every undisturbed run. */
  lemma LifecycleInvariant(cfg: Config, states: seq<World>, steps: seq<Step>)
    requires UndisturbedRun(cfg, states, steps)
    ensures forall k :: 0 <= k < |states| ==> TableOk(cfg, states[k].messages)
  {
    forall k | 0 <= k < |states|
      ensures TableOk(cfg, states[k].messages)
    {
      RunIsSteady(cfg, states, steps, k);
    }
  }

  /** A result written by id only onto a message that has been resolved meanwhile: a delivery reported for a
      draft that was rejected or had failed, or a failure reported by a scheduler worker. A content block
      reported for a failed message changes nothing but its error. */
  predicate LateResult(s: World, step: Step, id: int) {
    && step.End? && step.w in s.workers && Calling(s.workers[step.w]) && s.workers[step.w].todo[0] == id
    && id in s.messages && Resolved(s.messages[id].status)
    && match step.outcome
       case Delivered => s.messages[id].status != Sent
       case NotDelivered(error) =>
         Queued(s.workers[step.w].read.value) && !(s.messages[id].status == Failed && SafetyContentBlock(error))
  }

  /** Exactly when a message that is there stops being SENT, REJECTED or FAILED, in any state at all. */
  lemma ResolutionChangesExactlyByLateResult(cfg: Config, s: World, step: Step, id: int)
    requires Enabled(cfg, s, step) && id in s.messages && Resolved(s.messages[id].status)
    ensures s.messages[id].status != Failed ==> id in After(cfg, s, step).messages
    ensures id in After(cfg, s, step).messages && After(cfg, s, step).messages[id].status != s.messages[id].status
            <==> LateResult(s, step, id)
  {
  }

  /** SENT and REJECTED are absorbing in every run without late results for that message, however the sends of
      the other messages overlap: the row is there for good, with that status. */
  lemma {:induction false} SentAndRejectedAbsorb(
      cfg: Config, states: seq<World>, steps: seq<Step>, id: int, j: nat, k: nat)
    requires IsRun(cfg, states, steps) && j <= k < |states|
    requires id in states[j].messages && states[j].messages[id].status in {Sent, Rejected}
    requires forall i :: j <= i < k ==> !LateResult(states[i], steps[i], id)
    ensures id in states[k].messages && states[k].messages[id].status == states[j].messages[id].status
    decreases k
  {
    hide Enabled, After, LateResult;
    if k > j {
      SentAndRejectedAbsorb(cfg, states, steps, id, j, k - 1);
      assert Takes(cfg, states[k - 1], steps[k - 1], states[k]);
      ResolutionChangesExactlyByLateResult(cfg, states[k - 1], steps[k - 1], id);
    }
  }

  /** Undisturbed runs have no late results. */
  lemma UndisturbedMeansNoLateResult(cfg: Config, states: seq<World>, steps: seq<Step>, id: int, k: nat)
    requires UndisturbedRun(cfg, states, steps) && k < |steps|
    ensures !LateResult(states[k], steps[k], id)
  {
    RunIsSteady(cfg, states, steps, k);
    assert Takes(cfg, states[k], steps[k], states[k + 1]);
    SteadyHasNoLateResult(cfg, states[k], steps[k], id);
  }

  lemma SteadyHasNoLateResult(cfg: Config, s: World, step: Step, id: int)
    requires Steady(cfg, s) && Enabled(cfg, s, step)
    ensures !LateResult(s, step, id)
  {
    hide RowOk;
    if step.End? {
      assert InFlight(cfg, s, s.workers[step.w], 0);
    }
  }
}

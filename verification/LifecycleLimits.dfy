/** Where the lifecycle invariant ends: exactly which steps break it for a row, and runs of overlapping
    sends that do. */
module LifecycleLimits {
  import opened Common
  import opened Messages
  import opened Drafts
  import opened SchedulerRuns
  import opened SchedulerLimits
  import opened LifecycleRuns

  /** Undisturbed runs have no such step. */
  lemma UndisturbedMeansUnbroken(cfg: Config, states: seq<World>, steps: seq<Step>, id: int, k: nat)
    requires UndisturbedRun(cfg, states, steps) && k < |steps|
    ensures !Breaks(cfg, states[k], steps[k], id)
  {
    RunIsSteady(cfg, states, steps, k);
    assert Takes(cfg, states[k], steps[k], states[k + 1]);
    SteadyIsUnbroken(cfg, states[k], steps[k], id);
  }

  // ---- Runs that overlap ---------------------------------------------------------------------------

  function Sender(): Worker { Worker(false, None, "manager", 0, [7], Some(Draft)) }

  function OverlapRow(cfg: Config, k: nat): Message {
    var begun := AttemptStarted(cfg, DraftRow());
    if k == 0 then DraftRow()
    else if k == 1 then begun
    else if k == 2 then RejectedBy(begun, "reader", 0)
    else AfterSend(cfg, RejectedBy(begun, "reader", 0), Draft, "manager", 0, Delivered)
  }

  function OverlapWorld(cfg: Config, k: nat): World {
    World(map[7 := OverlapRow(cfg, k)], 8,
          if k == 0 then map[] else if k <= 2 then map[1 := Sender()] else map[1 := Advance(Sender())], 0)
  }

  function OverlapStep(k: nat): Step {
    if k == 0 then ApproveNow(1, 7, "manager", None) else if k == 1 then Reject(7, "reader", None) else End(1, Delivered)
  }

  /** A draft that is rejected while it is being sent at once ends up SENT. */
  lemma DeliveryOverwritesRejection(cfg: Config) returns (states: seq<World>, steps: seq<Step>)
    ensures IsRun(cfg, states, steps) && Quiet(states[0])
    ensures steps == [ApproveNow(1, 7, "manager", None), Reject(7, "reader", None), End(1, Delivered)]
    ensures 7 in states[2].messages && states[2].messages[7].status == Rejected
    ensures 7 in states[3].messages && states[3].messages[7].status == Sent
    ensures LateResult(states[2], steps[2], 7)
  {
    steps := seq(3, k requires 0 <= k => OverlapStep(k));
    states := seq(4, k requires 0 <= k => OverlapWorld(cfg, k));
    assert Takes(cfg, states[0], steps[0], states[1]);
    assert Takes(cfg, states[1], steps[1], states[2]);
    assert Takes(cfg, states[2], steps[2], states[3]);
  }

  /** The return and the failure, after the draft was scheduled again. */
  lemma RequeueTakes(cfg: Config) returns (returned: World, requeued: World)
    requires cfg.maxAttempts > 0 && cfg.claimTimeout > 1
    ensures Takes(cfg, ReapprovedWorld(cfg, 4), Return(7, None), returned) && Prompt(cfg, returned)
    ensures 7 in returned.messages && returned.messages[7].status == Draft
    ensures Takes(cfg, returned, End(1, NotDelivered("x")), requeued) && Breaks(cfg, returned, End(1, NotDelivered("x")), 7)
    ensures 7 in requeued.messages
    ensures var m := requeued.messages[7]; m.status == Scheduled && m.approved == 0 && m.approvedBy.None?
  {
    returned := After(cfg, ReapprovedWorld(cfg, 4), Return(7, None));
    requeued := After(cfg, returned, End(1, NotDelivered("x")));
  }

  lemma ReapprovedIsPrompt(cfg: Config, k: nat)
    requires cfg.maxAttempts > 0 && cfg.claimTimeout > 1 && k <= 6
    ensures Prompt(cfg, ReapprovedWorld(cfg, k))
    ensures Quiet(ReapprovedWorld(cfg, 0)) && TableOk(cfg, ReapprovedWorld(cfg, 0).messages)
  {
  }

  /** A draft returned to review while a worker's attempt is in flight is put back into the queue, without an
      approval, by the failure of that attempt. */
  lemma FailureRequeuesUnapproved(cfg: Config) returns (states: seq<World>, steps: seq<Step>)
    requires cfg.maxAttempts > 0 && cfg.claimTimeout > 1
    ensures IsRun(cfg, states, steps) && Quiet(states[0]) && TableOk(cfg, states[0].messages) && |steps| == 6
    ensures forall k :: 0 <= k < 6 ==> Prompt(cfg, states[k])
    ensures steps[5] == End(1, NotDelivered("x")) && Breaks(cfg, states[5], steps[5], 7) && 7 in states[6].messages
    ensures 7 in states[5].messages && states[5].messages[7].status == Draft
    ensures var m := states[6].messages[7]; m.status == Scheduled && m.approved == 0 && m.approvedBy.None?
  {
    var failure := End(1, NotDelivered("x"));
    states, steps := ReapprovedRun(cfg, 4);
    var returned, requeued := RequeueTakes(cfg);
    hide ReapprovedWorld, Takes, Breaks, Prompt, Quiet, TableOk;
    var end, last := [states[4], returned, requeued], [Return(7, None), failure];
    assert IsRun(cfg, end, last);
    JoinedRuns(cfg, states, steps, end, last);
    forall k: nat | k <= 4
      ensures Prompt(cfg, states[k])
      ensures Quiet(states[0]) && TableOk(cfg, states[0].messages)
    {
      ReapprovedIsPrompt(cfg, k);
    }
    states, steps := states + end[1..], steps + last;
    assert states[5] == end[1] && states[6] == end[2] && steps[5] == last[1];
  }

  lemma LateResults(cfg: Config, row: Message, at: int) returns (sent: World, reopened: World)
    requires Claimable(cfg, row, at)
    ensures Takes(cfg, LateWorld(cfg, row, at, 5), End(2, Delivered), sent)
    ensures 7 in sent.messages && sent.messages[7].status == Sent
    ensures Takes(cfg, sent, End(1, NotDelivered("x")), reopened) && LateResult(sent, End(1, NotDelivered("x")), 7)
    ensures 7 in reopened.messages && reopened.messages[7].status in {Draft, Scheduled}
  {
    sent := After(cfg, LateWorld(cfg, row, at, 5), End(2, Delivered));
    reopened := After(cfg, sent, End(1, NotDelivered("x")));
  }

  /** A message that was delivered and is SENT goes back to the queue, or to review, when a worker that has
      outlived the timeout reports a failure for it. */
  lemma LateFailureReopensSent(cfg: Config) returns (states: seq<World>, steps: seq<Step>)
    requires cfg.maxAttempts > 0 && cfg.claimTimeout > 0
    ensures IsRun(cfg, states, steps) && Quiet(states[0]) && |steps| == 7
    ensures 7 in states[6].messages && states[6].messages[7].status == Sent && LateResult(states[6], steps[6], 7)
    ensures 7 in states[7].messages && states[7].messages[7].status in {Draft, Scheduled}
  {
    var row := DueRow(0, 0);
    states, steps := LateRun(cfg, row, 0, 5);
    var sent, reopened := LateResults(cfg, row, 0);
    LateBegins(cfg, row, 0);
    hide LateWorld, Takes, LateResult, Quiet, Claimable;
    var end, last := [states[5], sent, reopened], [End(2, Delivered), End(1, NotDelivered("x"))];
    assert IsRun(cfg, end, last);
    JoinedRuns(cfg, states, steps, end, last);
    states, steps := states + end[1..], steps + last;
  }
}

/** How the scheduled queue drains: what each step does to the automatic attempts that are left. */
module Draining {
  import opened Common
  import opened Messages
  import opened Drafts
  import opened SchedulerRuns
  import opened LifecycleRuns
  import opened LifecycleLimits

  /** The automatic attempts a row may still use. */
  function Left(cfg: Config, m: Message): nat {
    if Queued(m.status) && m.attempts < cfg.maxAttempts then cfg.maxAttempts - m.attempts else 0
  }

  function LeftOf(cfg: Config, t: Table, id: int): nat { if id in t then Left(cfg, t[id]) else 0 }

  ghost function AttemptsLeft(cfg: Config, t: Table): map<int, nat> {
    map id | id in t :: Left(cfg, t[id])
  }

  /** The sum over the queue of the attempts left. */
  ghost function QueueWeight(cfg: Config, t: Table): nat { Total(AttemptsLeft(cfg, t)) }

  /** A failure reported by a scheduler worker puts a message back into the queue that had left it. */
  predicate Requeues(cfg: Config, s: World, step: Step, id: int) {
    && step.End? && step.w in s.workers && Calling(s.workers[step.w]) && s.workers[step.w].todo[0] == id
    && id in s.messages && Queued(s.workers[step.w].read.value)
    && step.outcome.NotDelivered? && !SafetyContentBlock(step.outcome.error)
    && !Queued(s.messages[id].status) && s.messages[id].attempts < cfg.maxAttempts
  }

  /** A call of the transport for a queued message that has an attempt left. */
  predicate UsesAttempt(cfg: Config, s: World, step: Step, id: int) {
    && step.Begin? && AttemptMade(s, step, id)
    && id in s.messages && Queued(s.messages[id].status) && s.messages[id].attempts < cfg.maxAttempts
  }

  /** Exactly when a step gives a message attempts back, in any state at all: when it schedules or requeues it. */
  lemma AttemptsRiseExactly(cfg: Config, s: World, step: Step, id: int)
    requires Enabled(cfg, s, step) && cfg.maxAttempts > 0
    ensures LeftOf(cfg, After(cfg, s, step).messages, id) > LeftOf(cfg, s.messages, id)
            <==> Schedules(s, step, id) || Requeues(cfg, s, step, id)
  {
  }

  /** A call for a queued message with an attempt left uses exactly one, and touches no other message. */
  lemma CallUsesOne(cfg: Config, s: World, step: Step, id: int)
    requires Enabled(cfg, s, step) && UsesAttempt(cfg, s, step, id)
    ensures LeftOf(cfg, After(cfg, s, step).messages, id) + 1 == LeftOf(cfg, s.messages, id)
    ensures forall other :: other != id ==> LeftOf(cfg, After(cfg, s, step).messages, other) == LeftOf(cfg, s.messages, other)
  {
  }

  // ---- The whole queue ---------------------------------------------------------------------------

  /** The step schedules or requeues some message. */
  ghost predicate Refills(cfg: Config, s: World, step: Step) {
    exists id :: Schedules(s, step, id) || Requeues(cfg, s, step, id)
  }

  /** Some message uses an attempt. */
  ghost predicate Uses(cfg: Config, s: World, step: Step) { exists id :: UsesAttempt(cfg, s, step, id) }

  lemma NoRefillAddsNothing(cfg: Config, s: World, step: Step)
    requires Enabled(cfg, s, step) && cfg.maxAttempts > 0 && !Refills(cfg, s, step)
    ensures Below(AttemptsLeft(cfg, After(cfg, s, step).messages), AttemptsLeft(cfg, s.messages))
  {
    hide Enabled, After, Left, Schedules, Requeues;
    var t, t' := s.messages, After(cfg, s, step).messages;
    forall id | id in t'
      ensures Left(cfg, t'[id]) == 0 || (id in t && Left(cfg, t'[id]) <= Left(cfg, t[id]))
    {
      AttemptsRiseExactly(cfg, s, step, id);
    }
  }

  /** A step that schedules or requeues a message changes that message only. */
  lemma RefillIsOfOne(cfg: Config, s: World, step: Step, id: int)
    requires Enabled(cfg, s, step) && (Schedules(s, step, id) || Requeues(cfg, s, step, id))
    ensures After(cfg, s, step).messages.Keys == s.messages.Keys && id in s.messages
    ensures forall other :: other in s.messages && other != id ==> After(cfg, s, step).messages[other] == s.messages[other]
  {
  }

  lemma RefillAddsWork(cfg: Config, s: World, step: Step, id: int)
    requires Enabled(cfg, s, step) && cfg.maxAttempts > 0
    requires Schedules(s, step, id) || Requeues(cfg, s, step, id)
    ensures QueueWeight(cfg, After(cfg, s, step).messages) > QueueWeight(cfg, s.messages)
  {
    hide Enabled, After, Left, Schedules, Requeues;
    var left, left' := AttemptsLeft(cfg, s.messages), AttemptsLeft(cfg, After(cfg, s, step).messages);
    AttemptsRiseExactly(cfg, s, step, id);
    RefillIsOfOne(cfg, s, step, id);
    assert Below(left, left');
    TotalDrops(left, left', id, 1);
  }

  /** Exactly when the queue gains work, in any state at all: when a step schedules or requeues a message. */
  lemma QueueGrowsExactly(cfg: Config, s: World, step: Step)
    requires Enabled(cfg, s, step) && cfg.maxAttempts > 0
    ensures QueueWeight(cfg, After(cfg, s, step).messages) > QueueWeight(cfg, s.messages) <==> Refills(cfg, s, step)
  {
    hide Enabled, After, QueueWeight, Schedules, Requeues;
    if id :| Schedules(s, step, id) || Requeues(cfg, s, step, id) {
      RefillAddsWork(cfg, s, step, id);
    } else {
      StepDrains(cfg, s, step);
    }
  }

  /** Any other step leaves at most the work there was, and one less if it uses an attempt. */
  lemma StepDrains(cfg: Config, s: World, step: Step)
    requires Enabled(cfg, s, step) && cfg.maxAttempts > 0 && !Refills(cfg, s, step)
    ensures QueueWeight(cfg, After(cfg, s, step).messages) + (if Uses(cfg, s, step) then 1 else 0) <= QueueWeight(cfg, s.messages)
  {
    hide Enabled, After, Left, Refills, UsesAttempt;
    var left, left' := AttemptsLeft(cfg, s.messages), AttemptsLeft(cfg, After(cfg, s, step).messages);
    NoRefillAddsNothing(cfg, s, step);
    if id :| UsesAttempt(cfg, s, step, id) {
      UserIsThere(cfg, s, step, id);
      CallUsesOne(cfg, s, step, id);
      TotalDrops(left', left, id, 1);
    } else {
      TotalMonotone(left', left);
    }
  }

  lemma UserIsThere(cfg: Config, s: World, step: Step, id: int)
    requires UsesAttempt(cfg, s, step, id)
    ensures id in s.messages
  {
  }

  // ---- Whole runs --------------------------------------------------------------------------------

  /** How many attempts are used in the steps from..until. */
  ghost function Used(cfg: Config, states: seq<World>, steps: seq<Step>, from: nat, until: nat): nat
    requires |states| == |steps| + 1 && until <= |steps|
    decreases until
  {
    if until <= from then 0
    else Used(cfg, states, steps, from, until - 1) + if Uses(cfg, states[until - 1], steps[until - 1]) then 1 else 0
  }

  /** Draining: in every run, however late its workers are and whatever is decided about messages in flight, as
      long as nothing is scheduled or requeued, the attempts used and the attempts left never exceed the
      attempts there were. */
  lemma {:induction false} QueueDrains(cfg: Config, states: seq<World>, steps: seq<Step>, from: nat, until: nat)
    requires IsRun(cfg, states, steps) && cfg.maxAttempts > 0 && from <= until <= |steps|
    requires forall k :: from <= k < until ==> !Refills(cfg, states[k], steps[k])
    ensures Used(cfg, states, steps, from, until) + QueueWeight(cfg, states[until].messages) <= QueueWeight(cfg, states[from].messages)
    decreases until
  {
    hide Enabled, After, QueueWeight, Uses, Refills;
    if until > from {
      QueueDrains(cfg, states, steps, from, until - 1);
      assert Takes(cfg, states[until - 1], steps[until - 1], states[until]);
      StepDrains(cfg, states[until - 1], steps[until - 1]);
    }
  }

  /** One message on its own: what is scheduled or requeued elsewhere does not matter to it. */
  lemma {:induction false} MessageDrains(cfg: Config, states: seq<World>, steps: seq<Step>, id: int, from: nat, until: nat)
    requires IsRun(cfg, states, steps) && cfg.maxAttempts > 0 && from <= until <= |steps|
    requires forall k :: from <= k < until ==> !Schedules(states[k], steps[k], id) && !Requeues(cfg, states[k], steps[k], id)
    ensures UsedBy(cfg, states, steps, id, from, until) + LeftOf(cfg, states[until].messages, id) <= LeftOf(cfg, states[from].messages, id)
    decreases until
  {
    hide Enabled, After, LeftOf, UsesAttempt, Schedules, Requeues;
    if until > from {
      MessageDrains(cfg, states, steps, id, from, until - 1);
      var s, step := states[until - 1], steps[until - 1];
      assert Takes(cfg, s, step, states[until]);
      AttemptsRiseExactly(cfg, s, step, id);
      if UsesAttempt(cfg, s, step, id) {
        CallUsesOne(cfg, s, step, id);
      }
    }
  }

  ghost function UsedBy(cfg: Config, states: seq<World>, steps: seq<Step>, id: int, from: nat, until: nat): nat
    requires |states| == |steps| + 1 && until <= |steps|
    decreases until
  {
    if until <= from then 0
    else UsedBy(cfg, states, steps, id, from, until - 1) + if UsesAttempt(cfg, states[until - 1], steps[until - 1], id) then 1 else 0
  }

  /** In undisturbed runs nothing is requeued, and every call of the scheduler uses an attempt. */
  lemma UndisturbedDrains(cfg: Config, states: seq<World>, steps: seq<Step>, id: int, k: nat)
    requires UndisturbedRun(cfg, states, steps) && k < |steps|
    ensures !Requeues(cfg, states[k], steps[k], id)
    ensures CallMade(states[k], steps[k], id) ==> UsesAttempt(cfg, states[k], steps[k], id)
  {
    RunIsSteady(cfg, states, steps, k);
    assert Takes(cfg, states[k], steps[k], states[k + 1]);
    SteadyDrains(cfg, states[k], steps[k], id);
  }

  lemma SteadyDrains(cfg: Config, s: World, step: Step, id: int)
    requires Steady(cfg, s) && Enabled(cfg, s, step)
    ensures !Requeues(cfg, s, step, id)
    ensures CallMade(s, step, id) ==> UsesAttempt(cfg, s, step, id)
  {
    hide RowOk;
    if step.End? || (step.Begin? && CallMade(s, step, id)) {
      assert InFlight(cfg, s, s.workers[step.w], 0);
    }
  }

  /** Within all timeouts, and with nothing scheduled by that step, a failure refills an empty queue: the draft
      had been returned to review while the attempt was in flight. */
  lemma FailureRefillsQueue(cfg: Config) returns (states: seq<World>, steps: seq<Step>)
    requires cfg.maxAttempts > 0 && cfg.claimTimeout > 1
    ensures IsRun(cfg, states, steps) && Quiet(states[0]) && |steps| == 6
    ensures forall k :: 0 <= k < 6 ==> Prompt(cfg, states[k])
    ensures !steps[5].Approve? && Requeues(cfg, states[5], steps[5], 7)
    ensures QueueWeight(cfg, states[6].messages) > QueueWeight(cfg, states[5].messages)
  {
    states, steps := FailureRequeuesUnapproved(cfg);
    assert Takes(cfg, states[5], steps[5], states[6]);
    RefillAddsWork(cfg, states[5], steps[5], 7);
  }
}

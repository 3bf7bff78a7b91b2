/** Every interleaving of scheduler workers, human decisions, the clock and crashes.
    Each committed transaction is one step; the transport is called between BeginSend and EndSend. */
module SchedulerRuns {
  import opened Common
  import opened Messages
  import opened Drafts

  /** A process that is sending. `todo` is what is left of its batch, the message being sent first;
      `read` is the status it read when it began that message. */
  datatype Worker = Worker(scheduler: bool, org: Option<int>, actor: string, since: int, todo: seq<int>, read: Option<Status>)

  datatype World = World(messages: Table, nextId: int, workers: map<int, Worker>, clock: int)

  datatype Step =
    | Tick(seconds: nat)
    | StartBatch(w: int, readAt: int, cutoffReadAt: int, limit: int, org: Option<int>, actor: string, picked: seq<int>)
    | Begin(w: int)
    | End(w: int, outcome: Outcome)
    | Leave(w: int)
    | Approve(id: int, actor: string, at: int, org: Option<int>)
    | Reject(id: int, actor: string, org: Option<int>)
    | ApproveNow(w: int, id: int, actor: string, org: Option<int>)
    | Reschedule(id: int, subject: string, body: string, at: int, org: Option<int>)
    | Return(id: int, org: Option<int>)
    | Edit(id: int, subject: string, body: string, org: Option<int>)
    | Delete(id: int, org: Option<int>)
    | MarkAsSent(id: int, actor: string, orgId: int)
    | Outreach(messages: Table, nextId: int)

  /** `max(1, min(limit, 200))`. */
  function BatchLimit(limit: int): nat { Max(1, Min(limit, 200)) }

  /** The ids a claim may return: distinct due rows within the limit. Rows another transaction has
      locked may be missing, so nothing is said here about which due rows are taken. */
  ghost predicate ClaimChoice(cfg: Config, swept: Table, picked: seq<int>, now: int, limit: int, org: Option<int>) {
    && |picked| <= BatchLimit(limit)
    && Distinct(picked)
    && forall i :: 0 <= i < |picked| ==> picked[i] in swept && Due(cfg, swept[picked[i]], now, org)
  }

  /** A row as the campaign runner, the follow-up generator, the reply drafter and the mail monitor insert it. */
  predicate FreshRow(m: Message) {
    && m.status in {Draft, Generating, Failed, Sent, NoStatus, Received}
    && (m.status == Received ==> !m.outbound)
    && (m.status != Sent ==> m.approved == 0)
    && m.claimedAt.None? && m.scheduledAt.None? && m.attempts == 0
  }

  /** A reserved row the campaign runner completes or fails. */
  predicate Completes(m: Message, m': Message) {
    && m.status == Generating && SameTouch(m, m') && m'.status in {Draft, Sent, Failed}
    && (m'.status == Draft ==> m'.approved == 0)
    && m'.claimedAt == m.claimedAt && m'.scheduledAt == m.scheduledAt && m'.attempts == m.attempts
  }

  /** What the creators of rows may do in one transaction: insert fresh rows under new ids and
      complete or fail reserved ones. */
  ghost predicate OutreachChange(t: Table, nextId: int, t': Table, nextId': int) {
    && nextId <= nextId'
    && t.Keys <= t'.Keys
    && (forall id :: id in t ==> t'[id] == t[id] || Completes(t[id], t'[id]))
    && (forall id :: id in t' && id !in t ==> nextId <= id < nextId' && FreshRow(t'[id]))
  }

  /** The worker has read and committed an attempt for the first message of its batch. */
  predicate Calling(w: Worker) { |w.todo| > 0 && w.read.Some? }

  ghost predicate Enabled(cfg: Config, s: World, step: Step) {
    match step
    case StartBatch(w, readAt, cutoffReadAt, limit, org, actor, picked) =>
      && w !in s.workers
      && readAt <= cutoffReadAt <= s.clock
      && ClaimChoice(cfg, Sweep(cfg, s.messages, cutoffReadAt - cfg.claimTimeout, org), picked, readAt, limit, org)
    case Begin(w) => w in s.workers && |s.workers[w].todo| > 0 && s.workers[w].read.None?
    case End(w, outcome) => w in s.workers && Calling(s.workers[w])
    case Leave(w) => w in s.workers
    case Approve(id, actor, at, org) => s.clock < at
    case ApproveNow(w, id, actor, org) => w !in s.workers
    case Outreach(messages, nextId) => OutreachChange(s.messages, s.nextId, messages, nextId)
    case _ => true
  }

  function Advance(worker: Worker): Worker
    requires |worker.todo| > 0
  {
    worker.(todo := worker.todo[1..], read := None)
  }

  /** The state after an enabled step. */
  ghost function After(cfg: Config, s: World, step: Step): World
    requires Enabled(cfg, s, step)
  {
    match step
    case Tick(seconds) => s.(clock := s.clock + seconds)
    case StartBatch(w, readAt, cutoffReadAt, limit, org, actor, picked) =>
      var swept := Sweep(cfg, s.messages, cutoffReadAt - cfg.claimTimeout, org);
      s.(messages := ClaimRows(swept, set i | 0 <= i < |picked| :: picked[i], readAt),
         workers := s.workers[w := Worker(true, org, actor, readAt, picked, None)])
    case Begin(w) =>
      var worker := s.workers[w];
      var id := worker.todo[0];
      if Sendable(s.messages, id, worker.org) then
        s.(messages := BeginSend(cfg, s.messages, id, worker.org),
           workers := s.workers[w := worker.(read := Some(s.messages[id].status))])
      else
        s.(workers := s.workers[w := Advance(worker)])
    case End(w, outcome) =>
      var worker := s.workers[w];
      s.(messages := EndSend(cfg, s.messages, worker.todo[0], worker.read.value, worker.actor, s.clock, outcome),
         workers := s.workers[w := Advance(worker)])
    case Leave(w) => s.(workers := s.workers - {w})
    case Approve(id, actor, at, org) => s.(messages := ScheduleApproval(s.messages, id, actor, s.clock, at, org))
    case Reject(id, actor, org) => s.(messages := Rejection(s.messages, id, actor, s.clock, org))
    case ApproveNow(w, id, actor, org) =>
      if Approvable(s.messages, id, org) && Sendable(s.messages, id, org) then
        s.(messages := BeginSend(cfg, s.messages, id, org),
           workers := s.workers[w := Worker(false, org, actor, s.clock, [id], Some(Draft))])
      else s
    case Reschedule(id, subject, body, at, org) => s.(messages := EditScheduled(s.messages, id, subject, body, at, org))
    case Return(id, org) => s.(messages := ReturnToReview(s.messages, id, org))
    case Edit(id, subject, body, org) => s.(messages := EditDraft(s.messages, id, subject, body, org))
    case Delete(id, org) => s.(messages := DeleteDraft(s.messages, id, org))
    case MarkAsSent(id, actor, orgId) => s.(messages := MarkSent(s.messages, id, actor, s.clock, orgId))
    case Outreach(messages, nextId) => s.(messages := messages, nextId := nextId)
  }

  // ---- Worker exclusivity ------------------------------------------------------------------

  /** `id` is in what is left of a live scheduler worker's batch. */
  predicate InBatch(s: World, w: int, id: int) {
    w in s.workers && s.workers[w].scheduler && id in s.workers[w].todo
  }

  /** The draft is not in two live workers' batches, nor twice in one. */
  ghost predicate ExclusiveFor(s: World, id: int) {
    && (forall w, v :: InBatch(s, w, id) && InBatch(s, v, id) ==> w == v)
    && (forall w :: w in s.workers && s.workers[w].scheduler ==> OnceIn(s.workers[w].todo, id))
  }

  ghost predicate OnceIn(todo: seq<int>, id: int) {
    forall i, j :: 0 <= i < j < |todo| && todo[i] == id ==> todo[j] != id
  }

  /** A live worker's claim of the draft that a sweep would take back: an attempt is left and the timeout is over. */
  predicate Expired(cfg: Config, s: World, w: int, id: int) {
    && InBatch(s, w, id) && id in s.messages
    && s.messages[id].outbound && s.messages[id].status == Sending && s.messages[id].approved == 1
    && s.messages[id].attempts < cfg.maxAttempts
    && s.workers[w].since + cfg.claimTimeout <= s.clock
  }

  /** The step schedules the draft: the approval finds it waiting. */
  predicate Schedules(s: World, step: Step, id: int) {
    step.Approve? && step.id == id && Approvable(s.messages, id, step.org)
  }

  /** What exclusivity of one draft asks of a step: no batch is started while a live worker's claim of this
      draft has expired, and nobody schedules this draft again while a live worker still has it. */
  ghost predicate OrderlyFor(cfg: Config, s: World, step: Step, id: int) {
    && (step.StartBatch? ==> forall w :: !Expired(cfg, s, w, id))
    && (Schedules(s, step, id) ==> forall w :: !InBatch(s, w, id))
  }

  /** A message of a live batch: nobody else can claim the row, and a row whose attempt has not begun is
      still claimed and approved with attempts left, or was sent by hand. */
  ghost predicate Held(cfg: Config, s: World, worker: Worker, i: nat)
    requires i < |worker.todo|
  {
    var id := worker.todo[i];
    && (id in s.messages ==>
          && s.messages[id].status != Scheduled
          && (s.messages[id].status == Sending ==> s.messages[id].claimedAt == Some(worker.since)))
    && (i > 0 || worker.read.None? ==>
          && id in s.messages
          && (s.messages[id].status == Sent
              || (s.messages[id].status == Sending && s.messages[id].approved == 1 && s.messages[id].attempts < cfg.maxAttempts)))
  }

  /** Only a first message is begun, and a process that sends at once has nothing but its own draft. */
  ghost predicate Formed(s: World) {
    && (forall id :: id in s.messages ==> id < s.nextId)
    && (forall w :: w in s.workers && !s.workers[w].scheduler ==>
          s.workers[w].todo == [] || (|s.workers[w].todo| == 1 && s.workers[w].read == Some(Draft)))
  }

  /** Every place of the draft in a live batch is held. */
  ghost predicate HeldFor(cfg: Config, s: World, id: int) {
    forall w, i :: w in s.workers && s.workers[w].scheduler && 0 <= i < |s.workers[w].todo| && s.workers[w].todo[i] == id ==>
      id < s.nextId && Held(cfg, s, s.workers[w], i)
  }

  ghost predicate SafeFor(cfg: Config, s: World, id: int) { Formed(s) && ExclusiveFor(s, id) && HeldFor(cfg, s, id) }

  /** Batches are only worked off: what is left of each is a suffix of what was left before. */
  ghost predicate BatchesShrink(s: World, s': World) {
    forall w :: w in s'.workers && s'.workers[w].scheduler ==>
      && w in s.workers && s.workers[w].scheduler
      && (s'.workers[w].todo == s.workers[w].todo
          || (|s.workers[w].todo| > 0 && s'.workers[w].todo == s.workers[w].todo[1..]))
  }

  lemma ShrinkingKeepsExclusive(s: World, s': World, id: int)
    requires ExclusiveFor(s, id) && BatchesShrink(s, s')
    ensures ExclusiveFor(s', id)
  {
    forall w, v | InBatch(s', w, id) && InBatch(s', v, id)
      ensures w == v
    {
      assert InBatch(s, w, id) && InBatch(s, v, id);
    }
  }

  lemma StepKeepsFormed(cfg: Config, s: World, step: Step)
    requires Formed(s) && Enabled(cfg, s, step)
    ensures Formed(After(cfg, s, step))
  {
  }

  lemma DecisionKeepsHeld(cfg: Config, s: World, step: Step, id: int)
    requires SafeFor(cfg, s, id) && Enabled(cfg, s, step) && OrderlyFor(cfg, s, step, id)
    requires !step.StartBatch? && !step.Begin? && !step.End?
    ensures ExclusiveFor(After(cfg, s, step), id) && HeldFor(cfg, After(cfg, s, step), id)
  {
    var s' := After(cfg, s, step);
    assert BatchesShrink(s, s');
    ShrinkingKeepsExclusive(s, s', id);
    hide ExclusiveFor, BatchesShrink;
    forall w, i | w in s'.workers && s'.workers[w].scheduler && 0 <= i < |s'.workers[w].todo| && s'.workers[w].todo[i] == id
      ensures id < s'.nextId && Held(cfg, s', s'.workers[w], i)
    {
      assert s.workers[w] == s'.workers[w] && Held(cfg, s, s.workers[w], i);
      assert InBatch(s, w, id);
      DecisionKeepsRow(cfg, s, step, id);
    }
  }

  /** What a decision leaves of a row that no live worker's batch lets it schedule. */
  lemma DecisionKeepsRow(cfg: Config, s: World, step: Step, id: int)
    requires Enabled(cfg, s, step) && id < s.nextId && !Schedules(s, step, id)
    requires !step.StartBatch? && !step.Begin? && !step.End?
    requires id in s.messages ==> s.messages[id].status != Scheduled
    ensures After(cfg, s, step).nextId >= s.nextId
    ensures var t, t' := s.messages, After(cfg, s, step).messages;
            && (id in t' ==>
                  && id in t && t'[id].status != Scheduled
                  && (t'[id].status == Sending ==> t[id].status == Sending && t'[id].claimedAt == t[id].claimedAt))
            && (id in t && t[id].status == Sent ==> id in t' && t'[id].status == Sent)
            && (id in t && t[id].status == Sending ==>
                  && id in t' && t'[id].status == Sending && t'[id].approved == t[id].approved && t'[id].attempts == t[id].attempts)
  {
  }

  lemma BeginKeepsHeld(cfg: Config, s: World, w: int, id: int)
    requires SafeFor(cfg, s, id) && Enabled(cfg, s, Begin(w))
    ensures ExclusiveFor(After(cfg, s, Begin(w)), id) && HeldFor(cfg, After(cfg, s, Begin(w)), id)
  {
    var s' := After(cfg, s, Begin(w));
    ShrinkingKeepsExclusive(s, s', id);
    forall v, i | v in s'.workers && s'.workers[v].scheduler && 0 <= i < |s'.workers[v].todo| && s'.workers[v].todo[i] == id
      ensures id < s'.nextId && Held(cfg, s', s'.workers[v], i)
    {
      assert s.workers[w].scheduler && s.workers[w].todo[0] == id ==> InBatch(s, w, id);
      assert InBatch(s, v, id);
      if v == w && |s'.workers[v].todo| < |s.workers[v].todo| {
        assert s.workers[v].todo[i + 1] == id && Held(cfg, s, s.workers[v], i + 1);
      } else {
        assert s.workers[v].todo[i] == id && Held(cfg, s, s.workers[v], i);
      }
    }
  }

  lemma EndKeepsHeld(cfg: Config, s: World, w: int, outcome: Outcome, id: int)
    requires SafeFor(cfg, s, id) && Enabled(cfg, s, End(w, outcome))
    ensures ExclusiveFor(After(cfg, s, End(w, outcome)), id) && HeldFor(cfg, After(cfg, s, End(w, outcome)), id)
  {
    var s' := After(cfg, s, End(w, outcome));
    ShrinkingKeepsExclusive(s, s', id);
    forall v, i | v in s'.workers && s'.workers[v].scheduler && 0 <= i < |s'.workers[v].todo| && s'.workers[v].todo[i] == id
      ensures id < s'.nextId && Held(cfg, s', s'.workers[v], i)
    {
      assert InBatch(s, v, id);
      if v == w {
        assert s.workers[v].todo[i + 1] == id && Held(cfg, s, s.workers[v], i + 1);
      } else {
        assert s.workers[v].todo[i] == id && Held(cfg, s, s.workers[v], i);
        assert s.workers[w].scheduler && s.workers[w].todo[0] == id ==> InBatch(s, w, id);
      }
    }
  }

  /** The sweep leaves alone every claim that has not expired, except that an attempt already begun may be
      paused; so nothing it claims was in a live batch. */
  lemma StartBatchKeepsHeld(cfg: Config, s: World, step: Step, id: int)
    requires step.StartBatch?
    requires SafeFor(cfg, s, id) && Enabled(cfg, s, step) && OrderlyFor(cfg, s, step, id)
    ensures ExclusiveFor(After(cfg, s, step), id) && HeldFor(cfg, After(cfg, s, step), id)
  {
    var s' := After(cfg, s, step);
    var ids := set i | 0 <= i < |step.picked| :: step.picked[i];
    forall v, i | v in s.workers && s.workers[v].scheduler && 0 <= i < |s.workers[v].todo| && s.workers[v].todo[i] == id
      ensures Held(cfg, s', s'.workers[v], i) && id !in step.picked
    {
      assert Held(cfg, s, s.workers[v], i);
      assert InBatch(s, v, id) && !Expired(cfg, s, v, id);
    }
    forall v, i | v in s'.workers && s'.workers[v].scheduler && 0 <= i < |s'.workers[v].todo| && s'.workers[v].todo[i] == id
      ensures id < s'.nextId && Held(cfg, s', s'.workers[v], i)
    {
      if v == step.w {
        assert step.picked[i] in ids;
      }
    }
    forall v, u | InBatch(s', v, id) && InBatch(s', u, id)
      ensures v == u
    {
      if v != step.w && u != step.w {
        assert InBatch(s, v, id) && InBatch(s, u, id);
      }
    }
  }

  /** The claims of one draft are kept by every step that is orderly for this draft, whatever happens to
      the other drafts. */
  lemma StepKeepsSafe(cfg: Config, s: World, step: Step, id: int)
    requires SafeFor(cfg, s, id) && Enabled(cfg, s, step) && OrderlyFor(cfg, s, step, id)
    ensures SafeFor(cfg, After(cfg, s, step), id)
  {
    StepKeepsFormed(cfg, s, step);
    match step
    case StartBatch(_, _, _, _, _, _, _) => StartBatchKeepsHeld(cfg, s, step, id);
    case Begin(w) => BeginKeepsHeld(cfg, s, w, id);
    case End(w, outcome) => EndKeepsHeld(cfg, s, w, outcome, id);
    case _ => DecisionKeepsHeld(cfg, s, step, id);
  }

  // ---- Whole runs --------------------------------------------------------------------------

  /** The states of a run and the step taken in each but the last. */
  ghost predicate IsRun(cfg: Config, states: seq<World>, steps: seq<Step>) {
    && |states| == |steps| + 1
    && forall k :: 0 <= k < |steps| ==> Takes(cfg, states[k], steps[k], states[k + 1])
  }

  ghost predicate Takes(cfg: Config, s: World, step: Step, s': World) {
    Enabled(cfg, s, step) && s' == After(cfg, s, step)
  }

  ghost predicate OrderlyRunFor(cfg: Config, states: seq<World>, steps: seq<Step>, id: int) {
    IsRun(cfg, states, steps) && forall k :: 0 <= k < |steps| ==> OrderlyFor(cfg, states[k], steps[k], id)
  }

  /** Nobody is sending; the table holds whatever rows it holds. */
  ghost predicate Quiet(s: World) {
    s.workers == map[] && forall id :: id in s.messages ==> id < s.nextId
  }

  lemma {:induction false} RunIsSafe(cfg: Config, states: seq<World>, steps: seq<Step>, id: int, k: nat)
    requires OrderlyRunFor(cfg, states, steps, id) && Quiet(states[0])
    requires k < |states|
    ensures SafeFor(cfg, states[k], id)
  {
    hide SafeFor, Enabled, After, OrderlyFor, Quiet;
    if k > 0 {
      RunIsSafe(cfg, states, steps, id, k - 1);
      assert Takes(cfg, states[k - 1], steps[k - 1], states[k]);
      StepKeepsSafe(cfg, states[k - 1], steps[k - 1], id);
    } else {
      QuietIsSafe(cfg, states[0], id);
    }
  }

  lemma QuietIsSafe(cfg: Config, s: World, id: int)
    requires Quiet(s)
    ensures SafeFor(cfg, s, id)
  {
  }

  /** Exclusivity of one draft: in a run that is orderly for this draft it is never in two live workers'
      batches, however late the workers on other drafts are. */
  lemma DraftExclusivity(cfg: Config, states: seq<World>, steps: seq<Step>, id: int)
    requires OrderlyRunFor(cfg, states, steps, id) && Quiet(states[0])
    ensures forall k :: 0 <= k < |states| ==> ExclusiveFor(states[k], id)
  {
    forall k | 0 <= k < |states|
      ensures ExclusiveFor(states[k], id)
    {
      RunIsSafe(cfg, states, steps, id, k);
    }
  }

  // ---- All drafts at once ------------------------------------------------------------------------

  /** No draft is in two live workers' batches, nor twice in one. */
  ghost predicate Exclusive(s: World) {
    && (forall w, v, id :: InBatch(s, w, id) && InBatch(s, v, id) ==> w == v)
    && (forall w :: w in s.workers && s.workers[w].scheduler ==> Distinct(s.workers[w].todo))
  }

  lemma ExclusiveIsForAll(s: World)
    ensures Exclusive(s) <==> forall id :: ExclusiveFor(s, id)
  {
    if forall id :: ExclusiveFor(s, id) {
      forall w, v, id | InBatch(s, w, id) && InBatch(s, v, id)
        ensures w == v
      {
        assert ExclusiveFor(s, id);
      }
      forall w, i, j | w in s.workers && s.workers[w].scheduler && 0 <= i < j < |s.workers[w].todo|
        ensures s.workers[w].todo[i] != s.workers[w].todo[j]
      {
        assert ExclusiveFor(s, s.workers[w].todo[i]);
      }
    }
  }

  /** Every live worker with work left is younger than the claim timeout. */
  ghost predicate Prompt(cfg: Config, s: World) {
    forall w :: w in s.workers && s.workers[w].scheduler && |s.workers[w].todo| > 0 ==>
      s.clock < s.workers[w].since + cfg.claimTimeout
  }

  /** Batches finish in time, and nobody schedules a draft again while a live worker still has it. */
  ghost predicate Orderly(cfg: Config, s: World, step: Step) {
    && (step.StartBatch? ==> Prompt(cfg, s))
    && (step.Approve? ==> forall w :: !InBatch(s, w, step.id))
  }

  ghost predicate OrderlyRun(cfg: Config, states: seq<World>, steps: seq<Step>) {
    IsRun(cfg, states, steps) && forall k :: 0 <= k < |steps| ==> Orderly(cfg, states[k], steps[k])
  }

  lemma OrderlyForAll(cfg: Config, s: World, step: Step, id: int)
    requires Orderly(cfg, s, step)
    ensures OrderlyFor(cfg, s, step, id)
  {
  }

  /** Worker exclusivity: in no state of an orderly run is a draft in two live workers' batches. */
  lemma WorkerExclusivity(cfg: Config, states: seq<World>, steps: seq<Step>)
    requires OrderlyRun(cfg, states, steps) && Quiet(states[0])
    ensures forall k :: 0 <= k < |states| ==> Exclusive(states[k])
  {
    forall k | 0 <= k < |states|
      ensures Exclusive(states[k])
    {
      forall id
        ensures ExclusiveFor(states[k], id)
      {
        forall i | 0 <= i < |steps|
          ensures OrderlyFor(cfg, states[i], steps[i], id)
        {
          OrderlyForAll(cfg, states[i], steps[i], id);
        }
        RunIsSafe(cfg, states, steps, id, k);
      }
      ExclusiveIsForAll(states[k]);
    }
  }

  // ---- Calls and attempts ------------------------------------------------------------------------

  /** This step is a scheduler worker committing an attempt for `id` and calling the transport. */
  predicate CallMade(s: World, step: Step, id: int) {
    && step.Begin? && step.w in s.workers && s.workers[step.w].scheduler
    && |s.workers[step.w].todo| > 0 && s.workers[step.w].todo[0] == id
    && Sendable(s.messages, id, s.workers[step.w].org)
  }

  /** This step commits an attempt for `id`, by the scheduler or by somebody who sends at once. */
  predicate AttemptMade(s: World, step: Step, id: int) {
    || (step.Begin? && step.w in s.workers && |s.workers[step.w].todo| > 0 && s.workers[step.w].todo[0] == id
        && Sendable(s.messages, id, s.workers[step.w].org))
    || (step.ApproveNow? && step.id == id && Approvable(s.messages, id, step.org) && Sendable(s.messages, id, step.org))
  }

  /** How often the scheduler calls the transport for `id` in the steps from..until. */
  ghost function Calls(states: seq<World>, steps: seq<Step>, id: int, from: nat, until: nat): nat
    requires |states| == |steps| + 1 && until <= |steps|
    decreases until
  {
    if until <= from then 0
    else Calls(states, steps, id, from, until - 1) + if CallMade(states[until - 1], steps[until - 1], id) then 1 else 0
  }

  /** How often anybody calls the transport for `id`. */
  ghost function Attempts(states: seq<World>, steps: seq<Step>, id: int, from: nat, until: nat): nat
    requires |states| == |steps| + 1 && until <= |steps|
    decreases until
  {
    if until <= from then 0
    else Attempts(states, steps, id, from, until - 1) + if AttemptMade(states[until - 1], steps[until - 1], id) then 1 else 0
  }

  /** In any state at all, while the draft is not scheduled anew, its counter moves exactly with its attempts,
      and a draft that is gone stays gone. */
  lemma StepCountsAttempts(cfg: Config, s: World, step: Step, id: int)
    requires Enabled(cfg, s, step) && Formed(s) && id < s.nextId && !Schedules(s, step, id)
    ensures id < After(cfg, s, step).nextId
    ensures AttemptMade(s, step, id) ==> id in s.messages && id in After(cfg, s, step).messages
    ensures id in After(cfg, s, step).messages ==>
              && id in s.messages
              && After(cfg, s, step).messages[id].attempts
                 == s.messages[id].attempts + if AttemptMade(s, step, id) then 1 else 0
  {
  }

  ghost predicate NotScheduled(states: seq<World>, steps: seq<Step>, id: int, from: nat, until: nat)
    requires |states| == |steps| + 1 && until <= |steps|
  {
    forall k :: from <= k < until ==> !Schedules(states[k], steps[k], id)
  }

  lemma {:induction false} RunIsFormed(cfg: Config, states: seq<World>, steps: seq<Step>, k: nat)
    requires IsRun(cfg, states, steps) && Quiet(states[0]) && k < |states|
    ensures Formed(states[k])
  {
    hide Formed, Enabled, After;
    if k > 0 {
      RunIsFormed(cfg, states, steps, k - 1);
      assert Takes(cfg, states[k - 1], steps[k - 1], states[k]);
      StepKeepsFormed(cfg, states[k - 1], steps[k - 1]);
    } else {
      QuietIsFormed(states[0]);
    }
  }

  lemma QuietIsFormed(s: World)
    requires Quiet(s)
    ensures Formed(s)
  {
  }

  lemma FormedIsKnown(s: World, id: int)
    requires Formed(s) && id in s.messages
    ensures id < s.nextId
  {
  }

  /** In every run, orderly or not, the counter of a draft counts the calls made for it since it was last
      scheduled: no crash loses an attempt and no edit hides one. */
  lemma {:induction false} CounterCountsAttempts(
      cfg: Config, states: seq<World>, steps: seq<Step>, id: int, from: nat, until: nat)
    requires IsRun(cfg, states, steps) && Quiet(states[0]) && from <= until <= |steps|
    requires id in states[from].messages && NotScheduled(states, steps, id, from, until)
    ensures id < states[until].nextId
    ensures id in states[until].messages ==>
              states[until].messages[id].attempts == states[from].messages[id].attempts + Attempts(states, steps, id, from, until)
    decreases until
  {
    hide Formed, Enabled, After, Quiet, AttemptMade, Schedules;
    RunIsFormed(cfg, states, steps, from);
    FormedIsKnown(states[from], id);
    if until > from {
      CounterCountsAttempts(cfg, states, steps, id, from, until - 1);
      RunIsFormed(cfg, states, steps, until - 1);
      assert Takes(cfg, states[until - 1], steps[until - 1], states[until]);
      StepCountsAttempts(cfg, states[until - 1], steps[until - 1], id);
    }
  }

  /** The transport is called although no attempt is left; the query that picks the row up does not ask. */
  predicate Overrun(cfg: Config, s: World, step: Step, id: int) {
    AttemptMade(s, step, id) && id in s.messages && s.messages[id].attempts >= cfg.maxAttempts
  }

  /** Exactly when a draft has more calls than attempts: when one of them is made with none left. */
  lemma {:induction false} TooManyCallsExactlyWhenOverrun(
      cfg: Config, states: seq<World>, steps: seq<Step>, id: int, from: nat, until: nat)
    requires IsRun(cfg, states, steps) && Quiet(states[0]) && from <= until <= |steps|
    requires id in states[from].messages && NotScheduled(states, steps, id, from, until)
    requires states[from].messages[id].attempts <= cfg.maxAttempts
    ensures states[from].messages[id].attempts + Attempts(states, steps, id, from, until) > cfg.maxAttempts
            <==> exists k :: from <= k < until && Overrun(cfg, states[k], steps[k], id)
    decreases until
  {
    hide Formed, Enabled, After, Quiet, AttemptMade, Schedules;
    if until > from {
      TooManyCallsExactlyWhenOverrun(cfg, states, steps, id, from, until - 1);
      CounterCountsAttempts(cfg, states, steps, id, from, until - 1);
      RunIsFormed(cfg, states, steps, until - 1);
      assert Takes(cfg, states[until - 1], steps[until - 1], states[until]);
      StepCountsAttempts(cfg, states[until - 1], steps[until - 1], id);
    }
  }

  /** The scheduler only calls for a draft that is claimed under an approval and has an attempt left. */
  lemma CallsAreApproved(cfg: Config, s: World, step: Step, id: int)
    requires SafeFor(cfg, s, id) && Enabled(cfg, s, step) && CallMade(s, step, id)
    ensures id in s.messages && s.messages[id].status == Sending && s.messages[id].approved == 1
    ensures s.messages[id].attempts < cfg.maxAttempts && s.messages[id].claimedAt == Some(s.workers[step.w].since)
  {
    assert Held(cfg, s, s.workers[step.w], 0);
  }

  lemma CallIsAttempt(s: World, step: Step, id: int)
    ensures CallMade(s, step, id) ==> AttemptMade(s, step, id)
  {
  }

  lemma {:induction false} CallsBoundedByAttempts(
      cfg: Config, states: seq<World>, steps: seq<Step>, id: int, from: nat, until: nat)
    requires OrderlyRunFor(cfg, states, steps, id) && Quiet(states[0])
    requires from <= until <= |steps|
    requires id in states[from].messages && states[from].messages[id].attempts <= cfg.maxAttempts
    requires NotScheduled(states, steps, id, from, until)
    ensures states[from].messages[id].attempts + Calls(states, steps, id, from, until) <= cfg.maxAttempts
    ensures Calls(states, steps, id, from, until) <= Attempts(states, steps, id, from, until)
    decreases until
  {
    hide SafeFor, Formed, Enabled, After, OrderlyFor, Quiet, CallMade, AttemptMade, Schedules;
    if until > from {
      CallsBoundedByAttempts(cfg, states, steps, id, from, until - 1);
      var s, step := states[until - 1], steps[until - 1];
      CallIsAttempt(s, step, id);
      if CallMade(s, step, id) {
        RunIsSafe(cfg, states, steps, id, until - 1);
        assert Takes(cfg, s, step, states[until]);
        CallsAreApproved(cfg, s, step, id);
        CounterCountsAttempts(cfg, states, steps, id, from, until - 1);
      }
    }
  }

  /** The attempt bound of one draft: after a schedule approval takes effect, the scheduler calls the
      transport for that draft at most `maxAttempts` times until it is scheduled again, whatever crashes,
      retries and edits come between and whatever becomes of the other drafts. */
  lemma AttemptBound(cfg: Config, states: seq<World>, steps: seq<Step>, id: int, from: nat, until: nat)
    requires OrderlyRunFor(cfg, states, steps, id) && Quiet(states[0])
    requires from < until <= |steps|
    requires Schedules(states[from], steps[from], id) && NotScheduled(states, steps, id, from + 1, until)
    ensures Calls(states, steps, id, from + 1, until) <= cfg.maxAttempts
  {
    assert states[from + 1].messages[id].attempts == 0;
    CallsBoundedByAttempts(cfg, states, steps, id, from + 1, until);
  }

  // ---- Approvals in force -------------------------------------------------------------------------

  /** The draft waits in the queue, or is claimed from it, under an approval. */
  predicate InForce(s: World, id: int) {
    id in s.messages && Queued(s.messages[id].status) && s.messages[id].approved == 1
  }

  /** No approval is in force and no live scheduler worker has the draft. */
  ghost predicate Withdrawn(s: World, id: int) {
    Formed(s) && id < s.nextId && !InForce(s, id) && forall w :: !InBatch(s, w, id)
  }

  /** A draft withdrawn from the queue stays out of it until it is scheduled, and is not called for. */
  lemma StepKeepsWithdrawn(cfg: Config, s: World, step: Step, id: int)
    requires Withdrawn(s, id) && Enabled(cfg, s, step) && !Schedules(s, step, id)
    ensures Withdrawn(After(cfg, s, step), id) && !CallMade(s, step, id)
  {
    var s' := After(cfg, s, step);
    StepKeepsFormed(cfg, s, step);
    assert step.End? || step.Begin? ==> !InBatch(s, step.w, id);
    assert !InForce(s', id);
    forall w
      ensures !InBatch(s', w, id)
    {
      if step.StartBatch? && w == step.w {
        assert forall i :: 0 <= i < |step.picked| ==> step.picked[i] != id;
      } else {
        assert !InBatch(s, w, id);
      }
    }
  }

  lemma {:induction false} WithdrawnStaysOut(cfg: Config, states: seq<World>, steps: seq<Step>, id: int, from: nat, until: nat)
    requires IsRun(cfg, states, steps) && from <= until <= |steps|
    requires Withdrawn(states[from], id) && NotScheduled(states, steps, id, from, until)
    ensures Withdrawn(states[until], id) && Calls(states, steps, id, from, until) == 0
    decreases until
  {
    hide Withdrawn, Enabled, After, CallMade, Schedules;
    if until > from {
      WithdrawnStaysOut(cfg, states, steps, id, from, until - 1);
      assert Takes(cfg, states[until - 1], steps[until - 1], states[until]);
      StepKeepsWithdrawn(cfg, states[until - 1], steps[until - 1], id);
    }
  }

  /** A scheduled draft that is returned to review, while no live worker has it, is not sent by the scheduler: in
      every run, from then on and until it is scheduled anew, it is in no live batch, never due, and the
      transport is never called for it. */
  lemma ReturnedIsNotSent(cfg: Config, states: seq<World>, steps: seq<Step>, id: int, from: nat, until: nat)
    requires IsRun(cfg, states, steps) && Quiet(states[0]) && from < until <= |steps|
    requires steps[from].Return? && steps[from].id == id && Reschedulable(states[from].messages, id, steps[from].org)
    requires forall w :: !InBatch(states[from], w, id)
    requires NotScheduled(states, steps, id, from + 1, until)
    ensures Calls(states, steps, id, from + 1, until) == 0
    ensures forall now, org :: id in states[until].messages ==> !Due(cfg, states[until].messages[id], now, org)
  {
    RunIsFormed(cfg, states, steps, from);
    assert Takes(cfg, states[from], steps[from], states[from + 1]);
    ReturningWithdraws(cfg, states[from], steps[from], id);
    WithdrawnStaysOut(cfg, states, steps, id, from + 1, until);
  }

  lemma ReturningWithdraws(cfg: Config, s: World, step: Step, id: int)
    requires Formed(s) && step.Return? && step.id == id && Reschedulable(s.messages, id, step.org)
    requires forall w :: !InBatch(s, w, id)
    ensures Withdrawn(After(cfg, s, step), id)
  {
    forall w
      ensures !InBatch(After(cfg, s, step), w, id)
    {
      assert !InBatch(s, w, id);
    }
  }

  lemma HeldIsNotWaiting(cfg: Config, s: World, w: int, id: int)
    requires SafeFor(cfg, s, id) && InBatch(s, w, id)
    ensures id in s.messages ==> s.messages[id].status != Scheduled
  {
    var i :| 0 <= i < |s.workers[w].todo| && s.workers[w].todo[i] == id;
    assert Held(cfg, s, s.workers[w], i);
  }

  /** In a run that is orderly for the draft no live worker has it when it is returned. */
  lemma ReturnMeetsNoBatch(cfg: Config, states: seq<World>, steps: seq<Step>, id: int, from: nat)
    requires OrderlyRunFor(cfg, states, steps, id) && Quiet(states[0]) && from < |steps|
    requires steps[from].Return? && steps[from].id == id && Reschedulable(states[from].messages, id, steps[from].org)
    ensures forall w :: !InBatch(states[from], w, id)
  {
    RunIsSafe(cfg, states, steps, id, from);
    forall w
      ensures !InBatch(states[from], w, id)
    {
      if InBatch(states[from], w, id) {
        HeldIsNotWaiting(cfg, states[from], w, id);
      }
    }
  }

  /** Every call of the scheduler has an approval behind it: the draft has been scheduled, and since it was
      last scheduled it has not been withdrawn. */
  lemma CallHasApproval(cfg: Config, states: seq<World>, steps: seq<Step>, id: int, k: nat) returns (i: nat)
    requires OrderlyRunFor(cfg, states, steps, id) && Quiet(states[0]) && k < |steps|
    requires CallMade(states[k], steps[k], id)
    requires id < states[0].nextId && !InForce(states[0], id)
    ensures InForce(states[k], id)
    ensures i < k && Schedules(states[i], steps[i], id) && NotScheduled(states, steps, id, i + 1, k)
    ensures forall j :: i < j <= k ==> !Withdrawn(states[j], id)
  {
    RunIsSafe(cfg, states, steps, id, k);
    assert Takes(cfg, states[k], steps[k], states[k + 1]);
    CallsAreApproved(cfg, states[k], steps[k], id);
    if NotScheduled(states, steps, id, 0, k) {
      QuietIsFormed(states[0]);
      WithdrawnStaysOut(cfg, states, steps, id, 0, k);
    }
    i := LastScheduled(states, steps, id, k);
    forall j | i < j <= k
      ensures !Withdrawn(states[j], id)
    {
      if Withdrawn(states[j], id) {
        WithdrawnStaysOut(cfg, states, steps, id, j, k);
      }
    }
  }

  lemma {:induction false} LastScheduled(states: seq<World>, steps: seq<Step>, id: int, k: nat) returns (i: nat)
    requires |states| == |steps| + 1 && k <= |steps| && !NotScheduled(states, steps, id, 0, k)
    ensures i < k && Schedules(states[i], steps[i], id) && NotScheduled(states, steps, id, i + 1, k)
  {
    hide Schedules;
    if Schedules(states[k - 1], steps[k - 1], id) {
      i := k - 1;
    } else {
      i := LastScheduled(states, steps, id, k - 1);
    }
  }

  /** Rows disappear by deletion only, and only unapproved drafts and failed rows can be deleted; no id is
      ever given out again. */
  lemma RowVanishesExactlyByDeletion(cfg: Config, s: World, step: Step, id: int)
    requires Enabled(cfg, s, step) && Formed(s) && id < s.nextId
    ensures id in s.messages && id !in After(cfg, s, step).messages
            <==> step.Delete? && step.id == id && Deletable(s.messages, id, step.org)
    ensures id !in s.messages ==> id !in After(cfg, s, step).messages && !AttemptMade(s, step, id)
  {
  }
}

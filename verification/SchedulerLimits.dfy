/** Where the guarantees of SchedulerRuns end: exactly when a claim can be shared, and runs of late workers
    and new approvals in which exclusivity, the attempt bound or the approval of a call is lost. */
module SchedulerLimits {
  import opened Common
  import opened Messages
  import opened Drafts
  import opened SchedulerRuns

  // ---- Expiry -----------------------------------------------------------------------------------

  /** Exactly when a sweep at instant `now` gives a claimed row with attempts left back to the queue. */
  lemma ClaimExpiresExactlyAtTimeout(cfg: Config, m: Message, now: int, org: Option<int>)
    requires RowOk(cfg, m) && m.status == Sending && m.outbound && Visible(m, org) && m.attempts < cfg.maxAttempts
    ensures Swept(cfg, m, now - cfg.claimTimeout, org).status == Scheduled <==> now >= m.claimedAt.value + cfg.claimTimeout
  {
  }

  /** Stored instants are whole seconds, so a worker may lose its claim up to a second before the
      timeout has really elapsed, and never earlier. Instants are in microseconds here. */
  lemma ExpiryIsASecondEarlyAtMost(claimed: int, now: int, timeout: nat)
    requires claimed <= now
    ensures now - claimed <= (timeout - 1) * 1_000_000 ==> now / 1_000_000 < claimed / 1_000_000 + timeout
    ensures now - claimed >= timeout * 1_000_000 ==> now / 1_000_000 >= claimed / 1_000_000 + timeout
  {
    var a, b := claimed / 1_000_000, now / 1_000_000;
    assert claimed == a * 1_000_000 + claimed % 1_000_000;
    assert now == b * 1_000_000 + now % 1_000_000;
  }

  /** One due row, as the counterexamples below use it. */
  function DueRow(at: int, attempts: nat): Message {
    Message(1, 1, None, None, true, "email", "", "", Scheduled, 1, Some("actor"), Some(at), Some(at), None, attempts, None, at, None)
  }

  function Start(w: int, at: int, picked: seq<int>): Step { StartBatch(w, at, at, 1, None, "scheduler", picked) }

  function Fresh(at: int, todo: seq<int>): Worker { Worker(true, None, "scheduler", at, todo, None) }

  /** A live worker's expired claim of a draft that is due. */
  predicate CanBeShared(cfg: Config, s: World, w: int, id: int) {
    Expired(cfg, s, w, id) && s.messages[id].scheduledAt.Some? && s.messages[id].scheduledAt.value <= s.clock
  }

  /** Worker `v` may start a batch after which the draft is in two batches. */
  ghost predicate Shares(cfg: Config, s: World, step: Step, v: int, id: int) {
    step.StartBatch? && step.w == v && Enabled(cfg, s, step) && !ExclusiveFor(After(cfg, s, step), id)
  }

  lemma ExpiredClaimIsShared(cfg: Config, s: World, v: int, w: int, id: int)
    requires SafeFor(cfg, s, id) && v !in s.workers && CanBeShared(cfg, s, w, id)
    ensures Shares(cfg, s, Start(v, s.clock, [id]), v, id)
  {
    var i :| 0 <= i < |s.workers[w].todo| && s.workers[w].todo[i] == id;
    assert Held(cfg, s, s.workers[w], i);
    var step := Start(v, s.clock, [id]);
    assert Enabled(cfg, s, step);
    var s' := After(cfg, s, step);
    assert InBatch(s', v, id) && InBatch(s', w, id);
  }

  lemma SharedClaimHadExpired(cfg: Config, s: World, step: Step, v: int, id: int)
    requires SafeFor(cfg, s, id) && Shares(cfg, s, step, v, id)
    ensures exists w :: CanBeShared(cfg, s, w, id)
  {
    if forall w :: !CanBeShared(cfg, s, w, id) {
      forall w, i | w in s.workers && s.workers[w].scheduler && 0 <= i < |s.workers[w].todo| && s.workers[w].todo[i] == id
        ensures id !in step.picked
      {
        assert Held(cfg, s, s.workers[w], i);
        assert InBatch(s, w, id) && !CanBeShared(cfg, s, w, id);
      }
      var s' := After(cfg, s, step);
      forall x, y | InBatch(s', x, id) && InBatch(s', y, id)
        ensures x == y
      {
        assert x != step.w ==> InBatch(s, x, id);
        assert y != step.w ==> InBatch(s, y, id);
      }
    }
  }

  /** Exactly when starting a batch can put a draft into two: when a live worker's claim of it has outlived the
      timeout while the draft is due and has an attempt left. */
  lemma BatchSharesExactlyWhenClaimExpired(cfg: Config, s: World, v: int, id: int)
    requires SafeFor(cfg, s, id) && v !in s.workers
    ensures (exists step: Step :: Shares(cfg, s, step, v, id)) <==> exists w :: CanBeShared(cfg, s, w, id)
  {
    if step: Step :| Shares(cfg, s, step, v, id) {
      SharedClaimHadExpired(cfg, s, step, v, id);
    }
    if w :| CanBeShared(cfg, s, w, id) {
      ExpiredClaimIsShared(cfg, s, v, w, id);
    }
  }

  /** Exactly when scheduling a draft keeps its claims: when no live worker has it. */
  lemma SchedulingKeepsClaimsExactly(cfg: Config, s: World, step: Step, id: int)
    requires SafeFor(cfg, s, id) && Enabled(cfg, s, step) && Schedules(s, step, id)
    ensures SafeFor(cfg, After(cfg, s, step), id) <==> forall w :: !InBatch(s, w, id)
  {
    var s' := After(cfg, s, step);
    if forall w :: !InBatch(s, w, id) {
      StepKeepsSafe(cfg, s, step, id);
    }
    if w :| InBatch(s, w, id) {
      var i :| 0 <= i < |s.workers[w].todo| && s.workers[w].todo[i] == id;
      assert s'.workers[w].todo[i] == id && !Held(cfg, s', s'.workers[w], i);
    }
  }

  /** Whenever a live worker has a draft that is back in review, scheduling it again lets the next worker
      claim it too, as soon as its time has come. */
  lemma ReschedulingShares(cfg: Config, s: World, w: int, v: int, id: int, actor: string, at: int)
    requires InBatch(s, w, id) && Approvable(s.messages, id, None) && s.messages[id].outbound
    requires v !in s.workers && s.clock < at && cfg.maxAttempts > 0
    ensures Enabled(cfg, s, Approve(id, actor, at, None))
    ensures var s1 := After(cfg, s, Approve(id, actor, at, None));
            var s2 := After(cfg, s1, Tick(at - s.clock));
            Shares(cfg, s2, Start(v, at, [id]), v, id)
  {
    var s1 := After(cfg, s, Approve(id, actor, at, None));
    var s2 := After(cfg, s1, Tick(at - s.clock));
    var step := Start(v, at, [id]);
    assert Enabled(cfg, s2, step);
    var s3 := After(cfg, s2, step);
    assert InBatch(s3, v, id) && InBatch(s3, w, id);
  }

  // ---- Runs of one draft ---------------------------------------------------------------------------

  lemma JoinedRuns(cfg: Config, states: seq<World>, steps: seq<Step>, states': seq<World>, steps': seq<Step>)
    requires IsRun(cfg, states, steps) && IsRun(cfg, states', steps') && states[|steps|] == states'[0]
    ensures IsRun(cfg, states + states'[1..], steps + steps')
    ensures forall k :: 0 <= k <= |steps| ==> (states + states'[1..])[k] == states[k]
    ensures forall i :: 0 <= i <= |steps'| ==> (states + states'[1..])[|steps| + i] == states'[i]
    ensures forall i :: 0 <= i < |steps'| ==> (steps + steps')[|steps| + i] == steps'[i]
  {
    hide Takes;
    var all, moves := states + states'[1..], steps + steps';
    forall k | 0 <= k < |moves|
      ensures Takes(cfg, all[k], moves[k], all[k + 1])
    {
      if k < |steps| {
        assert Takes(cfg, states[k], steps[k], states[k + 1]);
      } else {
        var i := k - |steps|;
        assert all[k] == states'[i] && all[k + 1] == states'[i + 1];
        assert Takes(cfg, states'[i], steps'[i], states'[i + 1]);
      }
    }
  }

  lemma ClaimOnOneRow(row: Message, picked: seq<int>, now: int)
    requires picked == [] || picked == [7]
    ensures ClaimRows(map[7 := row], set i | 0 <= i < |picked| :: picked[i], now)
            == map[7 := if picked == [] then row else ClaimedRow(row, now)]
  {
    var ids := set i | 0 <= i < |picked| :: picked[i];
    assert picked == [7] ==> picked[0] in ids;
  }

  lemma SweepOneRow(cfg: Config, row: Message, cutoff: int)
    ensures Sweep(cfg, map[7 := row], cutoff, None) == map[7 := Swept(cfg, row, cutoff, None)]
  {
  }

  /** A batch started on a one-row table. */
  lemma StartOnOneRow(cfg: Config, s: World, row: Message, w: int, picked: seq<int>)
    requires s.messages == map[7 := row] && w !in s.workers
    requires picked == [] || (picked == [7] && Due(cfg, Swept(cfg, row, s.clock - cfg.claimTimeout, None), s.clock, None))
    ensures Enabled(cfg, s, Start(w, s.clock, picked))
    ensures var row' := Swept(cfg, row, s.clock - cfg.claimTimeout, None);
            After(cfg, s, Start(w, s.clock, picked))
            == s.(messages := map[7 := if picked == [] then row' else ClaimedRow(row', s.clock)],
                  workers := s.workers[w := Fresh(s.clock, picked)])
  {
    hide Due, Swept, Sweep, ClaimRows, ClaimedRow;
    SweepOneRow(cfg, row, s.clock - cfg.claimTimeout);
    ClaimOnOneRow(Swept(cfg, row, s.clock - cfg.claimTimeout, None), picked, s.clock);
  }

  /** A due draft with its last attempt left, claimed by worker 1, who outlives the timeout; claimed again and
      begun by worker 2; and then begun by worker 1 as well. */
  function LateRow(cfg: Config, row: Message, at: int, k: nat): Message {
    var first := ClaimedRow(Swept(cfg, row, at - cfg.claimTimeout, None), at);
    var second := ClaimedRow(Swept(cfg, first, at, None), at + cfg.claimTimeout);
    if k == 0 then row
    else if k <= 2 then first
    else if k == 3 then second
    else if k == 4 then AttemptStarted(cfg, second)
    else AttemptStarted(cfg, AttemptStarted(cfg, second))
  }

  function LateWorkers(cfg: Config, at: int, k: nat): map<int, Worker> {
    var first, second := Fresh(at, [7]), Fresh(at + cfg.claimTimeout, [7]);
    if k == 0 then map[]
    else if k <= 2 then map[1 := first]
    else if k == 3 then map[1 := first, 2 := second]
    else if k == 4 then map[1 := first, 2 := second.(read := Some(Sending))]
    else map[1 := first.(read := Some(Sending)), 2 := second.(read := Some(Sending))]
  }

  function LateWorld(cfg: Config, row: Message, at: int, k: nat): World {
    World(map[7 := LateRow(cfg, row, at, k)], 8, LateWorkers(cfg, at, k), if k <= 1 then at else at + cfg.claimTimeout)
  }

  function LateStep(cfg: Config, at: int, k: nat): Step {
    if k == 0 then Start(1, at, [7])
    else if k == 1 then Tick(cfg.claimTimeout)
    else if k == 2 then Start(2, at + cfg.claimTimeout, [7])
    else if k == 3 then Begin(2)
    else Begin(1)
  }

  /** The row may be claimed at once. */
  predicate Claimable(cfg: Config, row: Message, at: int) {
    Due(cfg, Swept(cfg, row, at - cfg.claimTimeout, None), at, None)
  }

  lemma LateClaims(cfg: Config, row: Message, at: int, k: nat)
    requires Claimable(cfg, row, at) && k in {0, 2}
    ensures Takes(cfg, LateWorld(cfg, row, at, k), LateStep(cfg, at, k), LateWorld(cfg, row, at, k + 1))
  {
    var s := LateWorld(cfg, row, at, k);
    if k == 0 {
      StartOnOneRow(cfg, s, row, 1, [7]);
    } else {
      StartOnOneRow(cfg, s, LateRow(cfg, row, at, 2), 2, [7]);
    }
  }

  lemma LateCalls(cfg: Config, row: Message, at: int, k: nat)
    requires Claimable(cfg, row, at) && k in {3, 4}
    ensures Takes(cfg, LateWorld(cfg, row, at, k), LateStep(cfg, at, k), LateWorld(cfg, row, at, k + 1))
  {
    var m := LateRow(cfg, row, at, k);
    assert m.outbound && m.status == Sending && m.approved == 1;
    hide LateRow, Claimable, Swept;
    assert LateRow(cfg, row, at, k + 1) == AttemptStarted(cfg, m) by { LateRowBegins(cfg, row, at, k); }
  }

  lemma LateRowBegins(cfg: Config, row: Message, at: int, k: nat)
    requires k in {3, 4}
    ensures LateRow(cfg, row, at, k + 1) == AttemptStarted(cfg, LateRow(cfg, row, at, k))
  {
  }

  lemma LateTakes(cfg: Config, row: Message, at: int, k: nat)
    requires Claimable(cfg, row, at) && k < 5
    ensures Takes(cfg, LateWorld(cfg, row, at, k), LateStep(cfg, at, k), LateWorld(cfg, row, at, k + 1))
  {
    if k in {0, 2} {
      LateClaims(cfg, row, at, k);
    } else if k >= 3 {
      LateCalls(cfg, row, at, k);
    }
  }

  /** The first `n` steps of the late worker's run. */
  lemma LateRun(cfg: Config, row: Message, at: int, n: nat) returns (states: seq<World>, steps: seq<Step>)
    requires Claimable(cfg, row, at) && n <= 5
    ensures |steps| == n && IsRun(cfg, states, steps)
    ensures forall k :: 0 <= k <= n ==> states[k] == LateWorld(cfg, row, at, k)
    ensures forall k :: 0 <= k < n ==> steps[k] == LateStep(cfg, at, k)
  {
    hide LateWorld, LateStep, Takes, Claimable;
    steps := seq(n, k requires 0 <= k => LateStep(cfg, at, k));
    states := seq(n + 1, k requires 0 <= k => LateWorld(cfg, row, at, k));
    forall k | 0 <= k < n
      ensures Takes(cfg, states[k], steps[k], states[k + 1])
    {
      LateTakes(cfg, row, at, k);
    }
  }

  /** A worker that outlives the timeout shares its draft with the next worker. */
  lemma LateWorkerLosesExclusivity(cfg: Config) returns (states: seq<World>, steps: seq<Step>)
    requires cfg.maxAttempts > 0 && cfg.claimTimeout > 0
    ensures IsRun(cfg, states, steps) && Quiet(states[0])
    ensures steps == [Start(1, 0, [7]), Tick(cfg.claimTimeout), Start(2, cfg.claimTimeout, [7])]
    ensures !Exclusive(states[3])
  {
    states, steps := LateRun(cfg, DueRow(0, 0), 0, 3);
    assert InBatch(states[3], 1, 7) && InBatch(states[3], 2, 7);
  }

  /** A sweep pauses the late worker's draft before it has begun it, and then it begins. */
  lemma LatePaused(cfg: Config, row: Message, at: int) returns (paused: World, called: World)
    requires Claimable(cfg, row, at) && row.attempts == cfg.maxAttempts - 1
    ensures Takes(cfg, LateWorld(cfg, row, at, 4), Start(3, at + cfg.claimTimeout, []), paused)
    ensures Takes(cfg, paused, Begin(1), called) && CallMade(paused, Begin(1), 7)
    ensures paused.messages[7].status == Draft && paused.messages[7].approved == 0
  {
    var s, begun := LateWorld(cfg, row, at, 4), LateRow(cfg, row, at, 4);
    StartOnOneRow(cfg, s, begun, 3, []);
    paused := After(cfg, s, Start(3, at + cfg.claimTimeout, []));
    assert Exhausted(cfg, begun, None);
    called := After(cfg, paused, Begin(1));
  }

  lemma LateBegins(cfg: Config, row: Message, at: int)
    ensures Quiet(LateWorld(cfg, row, at, 0))
    ensures forall k: nat :: !LateStep(cfg, at, k).Approve? && !LateStep(cfg, at, k).ApproveNow?
  {
  }

  /** A worker that outlives the timeout may call the transport for a draft that is back in review: the query
      that picks a row up accepts an unapproved draft, because it also serves sending at once. */
  lemma LateWorkerCallsUnapproved(cfg: Config) returns (states: seq<World>, steps: seq<Step>)
    requires cfg.maxAttempts > 0 && cfg.claimTimeout > 0
    ensures IsRun(cfg, states, steps) && Quiet(states[0]) && |steps| == 6
    ensures forall k :: 0 <= k < 6 ==> !steps[k].Approve? && !steps[k].ApproveNow?
    ensures CallMade(states[5], steps[5], 7)
    ensures states[5].messages[7].status == Draft && states[5].messages[7].approved == 0
  {
    var row := DueRow(0, cfg.maxAttempts - 1);
    var early, first := LateRun(cfg, row, 0, 4);
    var paused, called := LatePaused(cfg, row, 0);
    LateBegins(cfg, row, 0);
    hide Takes, Claimable, LateRow, LateWorld, LateStep, CallMade, Quiet;
    var end, last := [early[4], paused, called], [Start(3, cfg.claimTimeout, []), Begin(1)];
    assert IsRun(cfg, end, last);
    JoinedRuns(cfg, early, first, end, last);
    states, steps := early + end[1..], first + last;
    assert states[5] == end[1] && steps[5] == last[1];
    assert forall k :: 0 <= k < 4 ==> steps[k] == LateStep(cfg, 0, k);
  }

  /** The rows of draft 7 in the counterexample below: due, claimed, last attempt begun, paused by a
      second worker's sweep, approved again, claimed again. */
  function ReapprovedRow(cfg: Config, k: nat): Message
    requires cfg.maxAttempts > 0
  {
    var due := DueRow(0, cfg.maxAttempts - 1);
    var begun := AttemptStarted(cfg, ClaimedRow(due, 0));
    var approved := ScheduledFor(PausedRow(begun).(lastError := Some(Paused(cfg.maxAttempts))), "manager", 0, 1);
    if k == 0 then due
    else if k == 1 then ClaimedRow(due, 0)
    else if k == 2 then begun
    else if k == 3 then PausedRow(begun).(lastError := Some(Paused(cfg.maxAttempts)))
    else if k <= 5 then approved
    else ClaimedRow(approved, 1)
  }

  function ReapprovedWorkers(k: nat): map<int, Worker> {
    var calling := Fresh(0, [7]).(read := Some(Sending));
    if k == 0 then map[]
    else if k == 1 then map[1 := Fresh(0, [7])]
    else if k == 2 then map[1 := calling]
    else if k <= 5 then map[1 := calling, 2 := Fresh(0, [])]
    else map[1 := calling, 2 := Fresh(0, []), 3 := Fresh(1, [7])]
  }

  function ReapprovedWorld(cfg: Config, k: nat): World
    requires cfg.maxAttempts > 0
  {
    World(map[7 := ReapprovedRow(cfg, k)], 8, ReapprovedWorkers(k), if k <= 4 then 0 else 1)
  }

  function ReapprovedStep(k: nat): Step {
    if k == 0 then Start(1, 0, [7])
    else if k == 1 then Begin(1)
    else if k == 2 then Start(2, 0, [])
    else if k == 3 then Approve(7, "manager", 1, None)
    else if k == 4 then Tick(1)
    else Start(3, 1, [7])
  }

  lemma ReapprovedTakes(cfg: Config, k: nat)
    requires cfg.maxAttempts > 0 && cfg.claimTimeout > 1 && k < 6
    ensures Takes(cfg, ReapprovedWorld(cfg, k), ReapprovedStep(k), ReapprovedWorld(cfg, k + 1))
  {
    var s := ReapprovedWorld(cfg, k);
    if k == 0 {
      StartOnOneRow(cfg, s, ReapprovedRow(cfg, 0), 1, [7]);
    } else if k == 2 {
      StartOnOneRow(cfg, s, ReapprovedRow(cfg, 2), 2, []);
    } else if k == 5 {
      StartOnOneRow(cfg, s, ReapprovedRow(cfg, 5), 3, [7]);
    }
  }

  /** The first `n` steps of the re-approved draft's run. */
  lemma ReapprovedRun(cfg: Config, n: nat) returns (states: seq<World>, steps: seq<Step>)
    requires cfg.maxAttempts > 0 && cfg.claimTimeout > 1 && n <= 6
    ensures |steps| == n && IsRun(cfg, states, steps)
    ensures forall k :: 0 <= k <= n ==> states[k] == ReapprovedWorld(cfg, k)
    ensures forall k :: 0 <= k < n ==> steps[k] == ReapprovedStep(k)
  {
    hide ReapprovedWorld, ReapprovedStep, Takes;
    steps := seq(n, k requires 0 <= k => ReapprovedStep(k));
    states := seq(n + 1, k requires 0 <= k => ReapprovedWorld(cfg, k));
    forall k | 0 <= k < n
      ensures Takes(cfg, states[k], steps[k], states[k + 1])
    {
      ReapprovedTakes(cfg, k);
    }
  }

  /** Why scheduling a draft again while a worker still has it is excluded: the pause sweep ignores the
      age of a claim, so it returns a last attempt in flight to review, and a new approval lets a second
      worker claim it although every worker is within the timeout. */
  lemma ReapprovalLosesExclusivity(cfg: Config) returns (states: seq<World>, steps: seq<Step>)
    requires cfg.maxAttempts > 0 && cfg.claimTimeout > 1
    ensures IsRun(cfg, states, steps) && Quiet(states[0])
    ensures forall k :: 0 <= k < |states| ==> Prompt(cfg, states[k])
    ensures |steps| == 6 && steps[3] == Approve(7, "manager", 1, None)
    ensures forall k :: 0 <= k < |steps| && k != 3 ==> Orderly(cfg, states[k], steps[k])
    ensures !Exclusive(states[6])
  {
    states, steps := ReapprovedRun(cfg, 6);
    assert InBatch(states[6], 1, 7) && InBatch(states[6], 3, 7);
  }

  // ---- More calls than attempts ---------------------------------------------------------------------

  /** An attempt whose worker crashes after the commit, and the timeout after it. */
  function CrashRow(cfg: Config, row: Message, at: int, k: nat): Message {
    var claimed := ClaimedRow(Swept(cfg, row, at - cfg.claimTimeout, None), at);
    if k == 0 then row else if k == 1 then claimed else AttemptStarted(cfg, claimed)
  }

  function CrashWorld(cfg: Config, row: Message, at: int, k: nat): World {
    World(map[7 := CrashRow(cfg, row, at, k)], 8,
          if k == 1 then map[1 := Fresh(at, [7])]
          else if k == 2 then map[1 := Fresh(at, [7]).(read := Some(Sending))]
          else map[],
          if k == 4 then at + cfg.claimTimeout else at)
  }

  function CrashStep(cfg: Config, at: int, k: nat): Step {
    if k == 0 then Start(1, at, [7]) else if k == 1 then Begin(1) else if k == 2 then Leave(1) else Tick(cfg.claimTimeout)
  }

  lemma CrashTakes(cfg: Config, row: Message, at: int, k: nat)
    requires Claimable(cfg, row, at) && k < 4
    ensures Takes(cfg, CrashWorld(cfg, row, at, k), CrashStep(cfg, at, k), CrashWorld(cfg, row, at, k + 1))
  {
    if k == 0 {
      StartOnOneRow(cfg, CrashWorld(cfg, row, at, 0), row, 1, [7]);
    }
  }

  lemma CrashRun(cfg: Config, row: Message, at: int) returns (states: seq<World>, steps: seq<Step>)
    requires Claimable(cfg, row, at)
    ensures |steps| == 4 && IsRun(cfg, states, steps)
    ensures forall k :: 0 <= k <= 4 ==> states[k] == CrashWorld(cfg, row, at, k)
    ensures forall k :: 0 <= k < 4 ==> steps[k] == CrashStep(cfg, at, k)
  {
    hide CrashWorld, CrashStep, Takes, Claimable;
    steps := seq(4, k requires 0 <= k => CrashStep(cfg, at, k));
    states := seq(5, k requires 0 <= k => CrashWorld(cfg, row, at, k));
    forall k | 0 <= k < 4
      ensures Takes(cfg, states[k], steps[k], states[k + 1])
    {
      CrashTakes(cfg, row, at, k);
    }
  }

  /** A run of scheduler workers only, without approvals. */
  ghost predicate Unattended(states: seq<World>, steps: seq<Step>) {
    && (forall k, w :: 0 <= k < |states| && w in states[k].workers ==> states[k].workers[w].scheduler)
    && (forall k :: 0 <= k < |steps| ==> !steps[k].Approve? && !steps[k].ApproveNow?)
  }

  lemma JoinedUnattended(states: seq<World>, steps: seq<Step>, states': seq<World>, steps': seq<Step>)
    requires Unattended(states, steps) && Unattended(states', steps') && |states'| > 0
    ensures Unattended(states + states'[1..], steps + steps')
  {
  }

  /** Crash after crash until one attempt is left, and then the late worker. */
  lemma {:induction false} OverrunFrom(cfg: Config, row: Message, at: int) returns (states: seq<World>, steps: seq<Step>)
    requires Claimable(cfg, row, at) && cfg.claimTimeout > 0
    ensures IsRun(cfg, states, steps) && Unattended(states, steps)
    ensures states[0] == World(map[7 := row], 8, map[], at)
    ensures 7 in states[|steps|].messages && states[|steps|].messages[7].attempts > cfg.maxAttempts
    decreases cfg.maxAttempts - row.attempts
  {
    if row.attempts + 1 >= cfg.maxAttempts {
      states, steps := LateRun(cfg, row, at, 5);
      LateEnds(cfg, row, at);
      forall k, w | 0 <= k < |states| && w in states[k].workers
        ensures states[k].workers[w].scheduler
      {
        LateIsUnattended(cfg, row, at, k);
      }
    } else {
      states, steps := CrashRun(cfg, row, at);
      CrashEnds(cfg, row, at);
      var next := CrashRow(cfg, row, at, 4);
      var later, more := OverrunFrom(cfg, next, at + cfg.claimTimeout);
      forall k, w | 0 <= k < |states| && w in states[k].workers
        ensures states[k].workers[w].scheduler
      {
        CrashIsUnattended(cfg, row, at, k);
      }
      hide Claimable, IsRun, Unattended;
      JoinedRuns(cfg, states, steps, later, more);
      JoinedUnattended(states, steps, later, more);
      states, steps := states + later[1..], steps + more;
    }
  }

  lemma LateEnds(cfg: Config, row: Message, at: int)
    requires Claimable(cfg, row, at)
    ensures LateWorld(cfg, row, at, 0) == World(map[7 := row], 8, map[], at)
    ensures LateRow(cfg, row, at, 5).attempts == row.attempts + 2
    ensures LateWorld(cfg, row, at, 5).messages == map[7 := LateRow(cfg, row, at, 5)]
  {
  }

  lemma LateIsUnattended(cfg: Config, row: Message, at: int, k: nat)
    requires k <= 5
    ensures forall w :: w in LateWorld(cfg, row, at, k).workers ==> LateWorld(cfg, row, at, k).workers[w].scheduler
    ensures !LateStep(cfg, at, k).Approve? && !LateStep(cfg, at, k).ApproveNow?
  {
  }

  lemma CrashEnds(cfg: Config, row: Message, at: int)
    requires Claimable(cfg, row, at) && row.attempts + 1 < cfg.maxAttempts && cfg.claimTimeout > 0
    ensures CrashWorld(cfg, row, at, 0) == World(map[7 := row], 8, map[], at)
    ensures var next := CrashRow(cfg, row, at, 4);
            && CrashWorld(cfg, row, at, 4) == World(map[7 := next], 8, map[], at + cfg.claimTimeout)
            && Claimable(cfg, next, at + cfg.claimTimeout) && next.attempts == row.attempts + 1
  {
  }

  lemma CrashIsUnattended(cfg: Config, row: Message, at: int, k: nat)
    requires k <= 4
    ensures forall w :: w in CrashWorld(cfg, row, at, k).workers ==> CrashWorld(cfg, row, at, k).workers[w].scheduler
    ensures !CrashStep(cfg, at, k).Approve? && !CrashStep(cfg, at, k).ApproveNow?
  {
  }

  lemma {:induction false} UnattendedCalls(cfg: Config, states: seq<World>, steps: seq<Step>, id: int, from: nat, until: nat)
    requires IsRun(cfg, states, steps) && from <= until <= |steps|
    requires forall k, w :: 0 <= k < |states| && w in states[k].workers ==> states[k].workers[w].scheduler
    requires forall k :: from <= k < until ==> !steps[k].ApproveNow?
    ensures Calls(states, steps, id, from, until) == Attempts(states, steps, id, from, until)
    decreases until
  {
    if until > from {
      UnattendedCalls(cfg, states, steps, id, from, until - 1);
    }
  }

  /** An unapproved draft. */
  function DraftRow(): Message {
    DueRow(0, 0).(status := Draft, approved := 0, approvedBy := None, approvedAt := None, scheduledAt := None)
  }

  /** Why the attempt bound needs workers that finish in time: whatever the maximum, after one approval a worker
      that outlives the timeout brings the calls of the transport above it. */
  lemma LateWorkerExceedsAttemptBound(cfg: Config) returns (states: seq<World>, steps: seq<Step>)
    requires cfg.maxAttempts > 0 && cfg.claimTimeout > 0
    ensures IsRun(cfg, states, steps) && Quiet(states[0]) && |steps| > 0
    ensures Schedules(states[0], steps[0], 7) && NotScheduled(states, steps, 7, 1, |steps|)
    ensures Calls(states, steps, 7, 1, |steps|) > cfg.maxAttempts
  {
    var approved := ScheduledFor(DraftRow(), "manager", 0, 1);
    var s0, s1, s2 := World(map[7 := DraftRow()], 8, map[], 0), World(map[7 := approved], 8, map[], 0), World(map[7 := approved], 8, map[], 1);
    var first := [Approve(7, "manager", 1, None), Tick(1)];
    assert Takes(cfg, s0, first[0], s1) && Takes(cfg, s1, first[1], s2);
    var later, more := OverrunFrom(cfg, approved, 1);
    JoinedRuns(cfg, [s0, s1, s2], first, later, more);
    states, steps := [s0, s1, s2] + later[1..], first + more;
    hide Takes, IsRun, Unattended, Quiet;
    CallsOfOverrun(cfg, states, steps, later, more, [s0, s1, s2], first);
  }

  lemma CallsOfOverrun(
      cfg: Config, states: seq<World>, steps: seq<Step>, later: seq<World>, more: seq<Step>, early: seq<World>, first: seq<Step>)
    requires IsRun(cfg, states, steps) && Quiet(states[0]) && IsRun(cfg, later, more) && Unattended(later, more)
    requires |early| == 3 && early[2] == later[0] && states == early + later[1..] && steps == first + more
    requires |first| == 2 && first[1] == Tick(1) && forall k :: 0 <= k < 3 ==> early[k].workers == map[]
    requires 7 in early[1].messages && early[1].messages[7].attempts == 0
    requires 7 in later[|more|].messages && later[|more|].messages[7].attempts > cfg.maxAttempts
    ensures NotScheduled(states, steps, 7, 1, |steps|)
    ensures Calls(states, steps, 7, 1, |steps|) > cfg.maxAttempts
  {
    forall k, w | 0 <= k < |states| && w in states[k].workers
      ensures states[k].workers[w].scheduler
    {
      if k >= 3 {
        assert states[k] == later[k - 2];
      }
    }
    assert states[1] == early[1];
    assert states[|steps|] == later[|more|];
    CounterCountsAttempts(cfg, states, steps, 7, 1, |steps|);
    UnattendedCalls(cfg, states, steps, 7, 1, |steps|);
  }
}

/** Where at most one unresolved touch ends: the drafts of the follow-up generator, the result of a late worker,
    and the runs that have neither. */
module TouchLimits {
  import opened Common
  import opened Messages
  import opened Steps
  import opened Drafts
  import opened SchedulerRuns
  import opened SchedulerLimits
  import opened LifecycleRuns
  import opened Outreach
  import opened StepSearch
  import opened TouchPositions
  import opened TouchRuns
  import Followups

  // ---- Undisturbed runs ------------------------------------------------------------------------------

  /** A counted row joins its pair only when all counted touches of the pair have been sent. */
  ghost predicate JoinsSent(e: Engine, m: Message) {
    forall p: Pair, x :: x in e.world.messages && Counted(e.world.messages[x], p) && Counted(m, p) ==>
      e.world.messages[x].status == Sent && e.world.messages[x].createdAt <= m.createdAt
  }

  ghost predicate Calm(cfg: Config, e: Engine, move: Move) {
    && (move.Service? ==> Undisturbed(cfg, e.world, move.step))
    && (move.RecordRow? ==> JoinsSent(e, move.m))
  }

  /** To the draft service every other move is a change of its surroundings. */
  lemma OtherMoveIsOutreach(cfg: Config, e: Engine, move: Move)
    requires Sound(e) && Possible(cfg, e, move) && !move.Service?
    ensures var w := Next(cfg, e, move).world;
            && OutreachChange(e.world.messages, e.world.nextId, w.messages, w.nextId)
            && w == e.world.(messages := w.messages, nextId := w.nextId)
  {
    match move
    case ClaimTouch(p, ignoreDelay) => ClaimIsOutreach(DbOf(e), p, e.world.clock, ignoreDelay);
    case RecordRow(m) => RecordIsOutreach(e.world.messages, e.world.nextId, m);
    case EditTables(_, _, _, _) =>
    case _ => OutcomeCompletes(cfg, e, move);
  }

  lemma ClaimIsOutreach(db: Db, p: Pair, now: int, ignoreDelay: bool)
    requires WellFormed(db)
    ensures OutreachChange(db.messages, db.nextId, Claim(db, p, now, ignoreDelay).0.messages, Claim(db, p, now, ignoreDelay).0.nextId)
  {
    hide OutreachChange, SkipsThenInsert, Claim;
    var before := ClaimShape(db, p, now, ignoreDelay);
    SkipsThenInsertIsOutreach(db, p, now, ignoreDelay, before, Claim(db, p, now, ignoreDelay).0, Claim(db, p, now, ignoreDelay).1);
  }

  lemma SkipsThenInsertIsOutreach(db: Db, p: Pair, now: int, ignoreDelay: bool, before: Db, db': Db, r: ClaimResult)
    requires WellFormed(db) && SkipsThenInsert(db, p, now, ignoreDelay, before, db', r)
    ensures OutreachChange(db.messages, db.nextId, db'.messages, db'.nextId)
  {
    hide SameHistory, FindNext;
    forall id | id in db.messages.Keys
      ensures id in db'.messages.Keys
    {
      assert id in before.messages;
    }
  }

  lemma RecordIsOutreach(t: Table, id: int, m: Message)
    requires FreshRow(m) && id !in t
    ensures OutreachChange(t, id, t[id := m], id + 1)
  {
  }

  lemma CalmMoveKeepsSteady(cfg: Config, e: Engine, move: Move)
    requires Sound(e) && Possible(cfg, e, move) && Calm(cfg, e, move) && Steady(cfg, e.world) && cfg.maxAttempts > 0
    ensures Steady(cfg, Next(cfg, e, move).world)
  {
    hide Steady, Sound, Undisturbed, OutreachChange, JoinsSent;
    if move.Service? {
      StepKeepsSteady(cfg, e.world, move.step);
    } else {
      OtherMoveIsOutreach(cfg, e, move);
      var w := Next(cfg, e, move).world;
      OutreachKeepsSteady(cfg, e.world, SchedulerRuns.Step.Outreach(w.messages, w.nextId));
    }
  }

  /** From a steady state, with undisturbed sends and rows recorded beside sent touches only. */
  ghost predicate CalmRun(cfg: Config, engines: seq<Engine>, moves: seq<Move>) {
    && EngineRun(cfg, engines, moves) && cfg.maxAttempts > 0 && Steady(cfg, engines[0].world)
    && forall k :: 0 <= k < |moves| ==> Calm(cfg, engines[k], moves[k])
  }

  lemma {:induction false} CalmRunIsSteady(cfg: Config, engines: seq<Engine>, moves: seq<Move>, k: nat)
    requires CalmRun(cfg, engines, moves) && k < |engines|
    ensures Steady(cfg, engines[k].world)
  {
    hide Steady, Sound, Possible, Next, Calm;
    if k > 0 {
      CalmRunIsSteady(cfg, engines, moves, k - 1);
      RunIsSound(cfg, engines, moves, k - 1);
      assert Moves(cfg, engines[k - 1], moves[k - 1], engines[k]);
      CalmMoveKeepsSteady(cfg, engines[k - 1], moves[k - 1]);
    }
  }

  lemma CalmMoveBreaksNothing(cfg: Config, e: Engine, move: Move, p: Pair)
    requires Possible(cfg, e, move) && Calm(cfg, e, move) && Steady(cfg, e.world)
    ensures !MoveBreaks(cfg, e, move, p)
  {
    hide Steady, LateResult, Undisturbed, ResultRow;
    if move.Service? {
      forall id
        ensures !LateResult(e.world, move.step, id)
      {
        SteadyHasNoLateResult(cfg, e.world, move.step, id);
      }
      NoLateResultNoBreak(cfg, e, move.step, p);
    }
  }

  /** Calm runs leave every pair in order. */
  lemma CalmRunIsUnbroken(cfg: Config, engines: seq<Engine>, moves: seq<Move>, p: Pair, k: nat)
    requires CalmRun(cfg, engines, moves) && k < |engines| && OnePending(engines[0].world.messages, p)
    ensures Unbroken(cfg, engines, moves, p, k)
  {
    hide Steady, Sound, Possible, Next, Calm, MoveBreaks, OnePending;
    forall i | 0 <= i < k
      ensures !MoveBreaks(cfg, engines[i], moves[i], p)
    {
      CalmRunIsSteady(cfg, engines, moves, i);
      assert Moves(cfg, engines[i], moves[i], engines[i + 1]);
      CalmMoveBreaksNothing(cfg, engines[i], moves[i], p);
    }
  }

  // ---- Follow-up drafts ------------------------------------------------------------------------------

  function PairOfRow(row: Followups.Row): Pair { Pair(row.org, row.campaign, row.lead) }

  /** Exactly when the follow-up generator gives a pair a second unresolved touch: when it inserts a draft while
      some counted touch of the pair has not been sent. Its own test looks at one step only. */
  lemma FollowupBreaksExactly(
      t: Table, nextId: int, row: Followups.Row, now: int, ignoreDelay: bool, writer: Followups.Writer, stamp: int)
    requires OnePending(t, PairOfRow(row)) && CreatedBy(t, stamp) && forall id :: id in t ==> id < nextId
    requires Followups.Inserts(t, row, now, ignoreDelay)
    ensures !OnePending(t[nextId := Followups.DraftOf(writer, row, stamp)], PairOfRow(row))
            <==> exists id :: id in Touches(t, PairOfRow(row)) && t[id].status != Sent
  {
    var m, p := Followups.DraftOf(writer, row, stamp), PairOfRow(row);
    InsertBreaksExactly(t, nextId, m, p);
    assert Counted(m, p);
    if id :| id in Touches(t, p) && t[id].status != Sent {
      assert RowMeets(t, m, p, id);
    }
  }

  /** The generator does not see a reservation for the very step it drafts: GENERATING is not among the
      statuses it takes for a duplicate. */
  lemma FollowupBesideReservation(p: Pair, step: int, text: StepRow, now: int, stamp: int, writer: Followups.Writer)
    ensures var t := map[7 := NewRow(p, Generating, Some(step), "email", stamp, None)];
            var row := Followups.Row(p.org, p.campaign, p.lead, step, text, None, "email");
            && OnePending(t, p) && Followups.Inserts(t, row, now, true)
            && !OnePending(t[8 := Followups.DraftOf(writer, row, stamp)], p)
  {
    var m := NewRow(p, Generating, Some(step), "email", stamp, None);
    var t, row := map[7 := m], Followups.Row(p.org, p.campaign, p.lead, step, text, None, "email");
    OneTouchIsInOrder(t, m, p);
    NoDuplicateOfOther(t, m, row);
    assert PairOfRow(row) == p && CreatedBy(t, stamp);
    hide OnePending, Touches, NewRow, Followups.DraftOf, Followups.HasDuplicate;
    FollowupBreaksExactly(t, 8, row, now, true, writer, stamp);
  }

  lemma OneTouchIsInOrder(t: Table, m: Message, p: Pair)
    requires t == map[7 := m] && Counted(m, p)
    ensures OnePending(t, p) && 7 in Touches(t, p)
  {
  }

  lemma NoDuplicateOfOther(t: Table, m: Message, row: Followups.Row)
    requires t == map[7 := m] && !Followups.Blocks(m, row)
    ensures !Followups.HasDuplicate(t, row)
  {
  }

  // ---- A late worker -----------------------------------------------------------------------------------

  const PURSUIT := Pair(1, 1, 1)

  /** Draft 7 is the first touch of the pair, linked to the step row of step 1; step 2 is defined as well. */
  function TouchRow(): Message { DueRow(0, 0).(campaign := Some(1), stepId := Some(9)) }

  function EngineOf(w: World): Engine {
    Engine(w, map[1 := Lead("a@b", "", "", false)], map[], map[(1, 2) := Definition("email", 0)],
           map[9 := StepRow(1, 1, 1, "", "", true)])
  }

  /** With the first touch sent, a claim reserves step 2. */
  lemma ClaimAfterSent(w: World, m: Message)
    requires w.messages == map[7 := m] && w.nextId == 8 && SameTouch(TouchRow(), m) && m.status == Sent
    ensures var db := DbOf(EngineOf(w));
            Claim(db, PURSUIT, w.clock, true)
            == (Insert(db, NewRow(PURSUIT, Generating, None, "email", w.clock, None)), Claimed(8, 2, "email", None, []))
  {
    var db := DbOf(EngineOf(w));
    var touches := Touches(db.messages, PURSUIT);
    assert forall id :: id in touches <==> id == 7;
    assert 7 in touches;
    assert Latest(db.messages, touches) == 7;
    assert Gate(db, PURSUIT).None?;
    assert NextNumber(db, PURSUIT) == 2;
    ClaimOfTake(db, PURSUIT, w.clock, 2, "email");
  }

  /** A search that takes a step at once. */
  lemma ClaimOfTake(db: Db, p: Pair, now: int, number: int, channel: string)
    requires Gate(db, p).None? && NextNumber(db, p) == number && (p.campaign, number) in db.defs
    requires ChannelOf(db, p, number) == channel && Usable(db, p, number) && StepIdOf(db, p, number) == None
    requires !IndexRejects(db.messages, p, None)
    ensures Claim(db, p, now, true) == (Insert(db, NewRow(p, Generating, None, channel, now, None)),
                                        Claimed(db.nextId, number, channel, None, []))
  {
    hide Gate, NextNumber, Usable, IndexRejects;
    assert FindNext(db, p, now, true) == Take(number, channel, None);
  }

  /** The second worker reports the delivery. */
  lemma LateSent(cfg: Config) returns (sent: World)
    requires cfg.maxAttempts > 0 && cfg.claimTimeout > 0
    ensures Takes(cfg, LateWorld(cfg, TouchRow(), 0, 5), End(2, Delivered), sent)
    ensures sent.nextId == 8 && sent.clock == cfg.claimTimeout && sent.messages.Keys == {7}
    ensures SameTouch(TouchRow(), sent.messages[7]) && sent.messages[7].status == Sent
    ensures 1 in sent.workers && sent.workers[1] == Fresh(0, [7]).(read := Some(Sending))
  {
    sent := After(cfg, LateWorld(cfg, TouchRow(), 0, 5), End(2, Delivered));
  }

  /** The first worker reports a failure after the next touch has been reserved. */
  lemma LateFailure(cfg: Config, s: World) returns (reopened: World)
    requires 7 in s.messages && s.messages[7].status == Sent && SameTouch(TouchRow(), s.messages[7])
    requires 8 in s.messages && s.messages[8] == NewRow(PURSUIT, Generating, None, "email", s.clock, None) && s.clock > 0
    requires 1 in s.workers && s.workers[1] == Fresh(0, [7]).(read := Some(Sending))
    ensures Takes(cfg, s, End(1, NotDelivered("x")), reopened)
    ensures 7 in reopened.messages && OfPair(reopened.messages[7], PURSUIT) && Unresolved(reopened.messages[7])
    ensures 8 in reopened.messages && reopened.messages[8] == s.messages[8]
    ensures ResultMeets(cfg, s, End(1, NotDelivered("x")), PURSUIT, 7, 8)
  {
    reopened := After(cfg, s, End(1, NotDelivered("x")));
  }

  /** A run of the draft service is a run of the engine. */
  lemma ServiceRun(cfg: Config, states: seq<World>, steps: seq<Step>) returns (engines: seq<Engine>, moves: seq<Move>)
    requires IsRun(cfg, states, steps) && Sound(EngineOf(states[0])) && forall k :: 0 <= k < |steps| ==> !steps[k].Outreach?
    ensures EngineRun(cfg, engines, moves) && |moves| == |steps|
    ensures forall k :: 0 <= k < |engines| ==> engines[k] == EngineOf(states[k])
    ensures forall k :: 0 <= k < |moves| ==> moves[k] == Service(steps[k])
  {
    engines := seq(|states|, k requires 0 <= k < |states| => EngineOf(states[k]));
    moves := seq(|steps|, k requires 0 <= k < |steps| => Service(steps[k]));
    hide Enabled, After, Sound;
    forall k | 0 <= k < |moves|
      ensures Moves(cfg, engines[k], moves[k], engines[k + 1])
    {
      assert Takes(cfg, states[k], steps[k], states[k + 1]);
    }
  }

  lemma OneMoreMove(cfg: Config, engines: seq<Engine>, moves: seq<Move>, move: Move, e: Engine)
    requires EngineRun(cfg, engines, moves) && Moves(cfg, engines[|moves|], move, e)
    ensures EngineRun(cfg, engines + [e], moves + [move])
  {
    hide Moves, Sound;
    var all, more := engines + [e], moves + [move];
    forall k | 0 <= k < |more|
      ensures Moves(cfg, all[k], more[k], all[k + 1])
    {
      if k < |moves| {
        assert Moves(cfg, engines[k], moves[k], engines[k + 1]);
      }
    }
  }

  lemma LateStart(cfg: Config)
    requires cfg.maxAttempts > 0 && cfg.claimTimeout > 0
    ensures Claimable(cfg, TouchRow(), 0) && Sound(EngineOf(LateWorld(cfg, TouchRow(), 0, 0)))
    ensures OnePending(LateWorld(cfg, TouchRow(), 0, 0).messages, PURSUIT)
    ensures forall k: nat :: !LateStep(cfg, 0, k).Outreach?
  {
  }

  /** The moves after the delivery: the claim and the late failure. */
  lemma LastMoves(cfg: Config, sent: World) returns (reserved: Engine, reopened: Engine)
    requires sent.nextId == 8 && sent.clock > 0 && sent.messages.Keys == {7}
    requires SameTouch(TouchRow(), sent.messages[7]) && sent.messages[7].status == Sent
    requires 1 in sent.workers && sent.workers[1] == Fresh(0, [7]).(read := Some(Sending))
    ensures Moves(cfg, EngineOf(sent), ClaimTouch(PURSUIT, true), reserved)
    ensures Moves(cfg, reserved, Service(End(1, NotDelivered("x"))), reopened)
    ensures MoveBreaks(cfg, reserved, Service(End(1, NotDelivered("x"))), PURSUIT)
    ensures var t := reopened.world.messages;
            7 in t && 8 in t && OfPair(t[7], PURSUIT) && Unresolved(t[7]) && OfPair(t[8], PURSUIT) && Unresolved(t[8])
  {
    var m := sent.messages[7];
    assert sent.messages == map[7 := m];
    ClaimAfterSent(sent, m);
    hide Claim;
    reserved := Next(cfg, EngineOf(sent), ClaimTouch(PURSUIT, true));
    var w := LateFailure(cfg, reserved.world);
    hide ResultMeets, Enabled, After;
    reopened := reserved.(world := w);
  }

  /** Up to the delivery. */
  lemma LateUntilSent(cfg: Config) returns (engines: seq<Engine>, moves: seq<Move>, sent: World)
    requires cfg.maxAttempts > 0 && cfg.claimTimeout > 0
    ensures EngineRun(cfg, engines, moves) && |moves| == 6 && OnePending(engines[0].world.messages, PURSUIT)
    ensures engines[6] == EngineOf(sent) && sent.nextId == 8 && sent.clock > 0 && sent.messages.Keys == {7}
    ensures SameTouch(TouchRow(), sent.messages[7]) && sent.messages[7].status == Sent
    ensures 1 in sent.workers && sent.workers[1] == Fresh(0, [7]).(read := Some(Sending))
  {
    LateStart(cfg);
    var states, steps := LateRun(cfg, TouchRow(), 0, 5);
    sent := LateSent(cfg);
    engines, moves := ServiceRun(cfg, states, steps);
    hide Sound, OnePending, LateWorld, LateStep, SameTouch;
    assert Moves(cfg, engines[5], Service(End(2, Delivered)), EngineOf(sent));
    hide Takes, Moves;
    OneMoreMove(cfg, engines, moves, Service(End(2, Delivered)), EngineOf(sent));
    engines, moves := engines + [EngineOf(sent)], moves + [Service(End(2, Delivered))];
  }

  /** A worker that outlives the timeout gives a pair a second unresolved touch: its draft has been delivered by
      another worker, the next step has been reserved, and then it reports a failure. */
  lemma LateFailureBesideReservation(cfg: Config) returns (engines: seq<Engine>, moves: seq<Move>)
    requires cfg.maxAttempts > 0 && cfg.claimTimeout > 0
    ensures EngineRun(cfg, engines, moves) && |moves| == 8 && OnePending(engines[0].world.messages, PURSUIT)
    ensures moves[6] == ClaimTouch(PURSUIT, true) && MoveBreaks(cfg, engines[7], moves[7], PURSUIT)
    ensures var t := engines[8].world.messages;
            7 in t && 8 in t && OfPair(t[7], PURSUIT) && Unresolved(t[7]) && OfPair(t[8], PURSUIT) && Unresolved(t[8])
  {
    var early, first, sent := LateUntilSent(cfg);
    var reserved, reopened := LastMoves(cfg, sent);
    hide Sound, Moves, MoveBreaks, OnePending, OfPair, Unresolved, SameTouch;
    OneMoreMove(cfg, early, first, ClaimTouch(PURSUIT, true), reserved);
    engines, moves := early + [reserved], first + [ClaimTouch(PURSUIT, true)];
    OneMoreMove(cfg, engines, moves, Service(End(1, NotDelivered("x"))), reopened);
    engines, moves := engines + [reopened], moves + [Service(End(1, NotDelivered("x")))];
  }
}

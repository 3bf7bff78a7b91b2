/** Runs in which a lead can be reached on every step: its touches are its campaign's steps, one after the other. */
module NumberedRuns {
  import opened Common
  import opened Messages
  import opened Steps
  import opened Drafts
  import opened SchedulerRuns
  import opened LifecycleRuns
  import opened Outreach
  import opened OutreachMeaning
  import opened StepSearch
  import opened TouchPositions
  import opened TouchRuns
  import opened SequenceEdits
  import EditedRuns

  /** The touches of the pair made before message `id`. */
  ghost function Before(t: Table, p: Pair, id: int): set<int>
    requires id in t
  {
    set x | x in t && IsTouch(t[x], p)
            && (t[x].createdAt < t[id].createdAt || (t[x].createdAt == t[id].createdAt && x < id))
  }

  ghost function TouchSet(t: Table, p: Pair): set<int> { set x | x in t && IsTouch(t[x], p) }

  /** Every touch of the pair is linked to the step that has one number more than there are touches before it. */
  ghost predicate InStep(t: Table, steps: StepTable, p: Pair) {
    forall id :: id in t && IsTouch(t[id], p) ==> LinkedTo(steps, t[id], 1 + |Before(t, p, id)|)
  }

  /** The lead can be reached on every step of the campaign, each has a step row, and its touch count is 0 as long as it
      has no touch. */
  ghost predicate Regular(db: Db, p: Pair) {
    && (forall k :: IsStep(db, p, k) ==> CanReach(db, p, k) && HasStepRow(db, p, k))
    && (Untouched(db.messages, p) ==> HasCount(db, p, 0))
  }

  /** What may happen: the pair is claimed for while it is regular, nothing else makes a touch of it, no late result is
      written onto a message of it, and step rows change by sequence edits. Everything else is free. */
  ghost predicate Undisturbing(e: Engine, move: Move, p: Pair) {
    match move
    case ClaimTouch(q, _) => q == p && Contactable(DbOf(e), p) ==> Regular(DbOf(e), p)
    case Service(step) => forall id :: id in e.world.messages && OfPair(e.world.messages[id], p) ==> !LateResult(e.world, step, id)
    case RecordRow(m) => !IsTouch(m, p)
    case EditTables(_, _, _, steps) => steps == e.steps || IsEdit(e.world.messages, e.steps, steps)
    case _ => true
  }

  // ---- Claims -----------------------------------------------------------------------------------------

  lemma AllBeforeLast(t: Table, p: Pair, id: int)
    requires IsLast(t, p, id)
    ensures TouchSet(t, p) == Before(t, p, id) + {id} && |TouchSet(t, p)| == |Before(t, p, id)| + 1
  {
    assert forall x :: x in TouchSet(t, p) <==> x in Before(t, p, id) + {id};
    assert id !in Before(t, p, id);
  }

  /** A lead in step is at the step with the number of touches it has had. */
  lemma InStepPosition(db: Db, p: Pair)
    requires InStep(db.messages, db.steps, p) && Regular(db, p)
    ensures IsAt(db, p, |TouchSet(db.messages, p)|)
  {
    hide HasCount, LinkedTo, CanReach, HasStepRow;
    var t, s := db.messages, |TouchSet(db.messages, p)|;
    if Untouched(t, p) {
      assert forall x :: x !in TouchSet(t, p);
      EmptySet(TouchSet(t, p));
    }
    forall id | IsLast(t, p, id)
      ensures StandsAt(db, p, t[id], s)
    {
      AllBeforeLast(t, p, id);
      assert LinkedTo(db.steps, t[id], s);
    }
  }

  /** A claim for such a lead reserves the step after as many as it has had touches, and passes over none. */
  lemma RegularClaim(db: Db, p: Pair, now: int, ignoreDelay: bool)
    requires WellFormed(db) && InStep(db.messages, db.steps, p) && Regular(db, p)
    requires Claim(db, p, now, ignoreDelay).1.Claimed?
    ensures var r := Claim(db, p, now, ignoreDelay).1;
            && r.number == |TouchSet(db.messages, p)| + 1
            && HasStepRow(db, p, r.number)
  {
    hide Claim, WellFormed, InStep, CanReach, HasStepRow, IsAt, Contactable, MustWait, HasUnlinkedTouch;
    InStepPosition(db, p);
    var s, r := |TouchSet(db.messages, p)|, Claim(db, p, now, ignoreDelay).1;
    assert IsStep(db, p, s + 1) ==> CanReach(db, p, s + 1);
    ClaimMeans(db, p, s, now, ignoreDelay, r.number);
  }

  // ---- What keeps the touches in step -------------------------------------------------------------------

  /** No message becomes a touch of the pair, and its sent touches stay. */
  ghost predicate Settled(t: Table, t': Table, p: Pair) {
    && (forall id :: id in t' && IsTouch(t'[id], p) ==> id in t && IsTouch(t[id], p) && SameTouch(t[id], t'[id]))
    && (forall id :: id in t && IsTouch(t[id], p) && t[id].status == Sent ==>
          id in t' && IsTouch(t'[id], p) && SameTouch(t[id], t'[id]))
  }

  /** Of two touches the earlier one has been sent. */
  lemma EarlierIsSent(t: Table, p: Pair, x: int, id: int)
    requires OnePending(t, p) && x in t && id in t && IsTouch(t[x], p) && IsTouch(t[id], p) && Earlier(t, x, id)
    ensures t[x].status == Sent
  {
    assert Counted(t[x], p) && Counted(t[id], p);
  }

  lemma SettlingKeepsStep(t: Table, t': Table, steps: StepTable, p: Pair)
    requires OnePending(t, p) && InStep(t, steps, p) && Settled(t, t', p)
    ensures InStep(t', steps, p)
  {
    hide OnePending, IsTouch;
    forall id | id in t' && IsTouch(t'[id], p)
      ensures LinkedTo(steps, t'[id], 1 + |Before(t', p, id)|)
    {
      forall x
        ensures x in Before(t', p, id) <==> x in Before(t, p, id)
      {
        if x in Before(t, p, id) {
          EarlierIsSent(t, p, x, id);
        }
      }
      assert Before(t', p, id) == Before(t, p, id);
      assert LinkedTo(steps, t[id], 1 + |Before(t, p, id)|);
    }
  }

  /** A new touch linked to the next step, created after every other message, is in step. */
  lemma InsertKeepsStep(t: Table, steps: StepTable, p: Pair, id: int, m: Message)
    requires InStep(t, steps, p) && forall x :: x in t ==> x < id && t[x].createdAt <= m.createdAt
    requires LinkedTo(steps, m, 1 + |TouchSet(t, p)|)
    ensures InStep(t[id := m], steps, p)
  {
    hide IsTouch, LinkedTo;
    var t' := t[id := m];
    forall a | a in t' && IsTouch(t'[a], p)
      ensures LinkedTo(steps, t'[a], 1 + |Before(t', p, a)|)
    {
      if a == id {
        assert forall x :: x in Before(t', p, a) <==> x in TouchSet(t, p);
        assert Before(t', p, a) == TouchSet(t, p);
      } else {
        assert forall x :: x in Before(t', p, a) <==> x in Before(t, p, a);
        assert Before(t', p, a) == Before(t, p, a);
      }
    }
  }

  /** Skips and claims for other pairs make no touch of the pair. */
  lemma SkipsSettle(db: Db, before: Db, q: Pair, p: Pair, now: int)
    requires OnlySkips(db, before, q, now)
    ensures Settled(db.messages, before.messages, p) && TouchSet(before.messages, p) == TouchSet(db.messages, p)
  {
    assert forall x :: x in TouchSet(before.messages, p) <==> x in TouchSet(db.messages, p);
  }

  lemma OtherClaimSettles(db: Db, q: Pair, p: Pair, now: int, ignoreDelay: bool)
    requires WellFormed(db) && p != q
    ensures Settled(db.messages, Claim(db, q, now, ignoreDelay).0.messages, p)
  {
    hide Claim, SameHistory, FindNext;
    var before := ClaimShape(db, q, now, ignoreDelay);
    SkipsSettle(db, before, q, p, now);
  }

  lemma ClaimKeepsStep(db: Db, p: Pair, now: int, ignoreDelay: bool)
    requires WellFormed(db) && CreatedBy(db.messages, now) && OnePending(db.messages, p)
    requires InStep(db.messages, db.steps, p) && (Contactable(db, p) ==> Regular(db, p))
    ensures InStep(Claim(db, p, now, ignoreDelay).0.messages, db.steps, p)
  {
    hide Claim, SameHistory, FindNext, Contactable, Regular, InStep, OnePending, TouchSet, Settled, HasStepRow;
    var r := Claim(db, p, now, ignoreDelay).1;
    var before := ClaimShape(db, p, now, ignoreDelay);
    SkipsSettle(db, before, p, p, now);
    SettlingKeepsStep(db.messages, before.messages, db.steps, p);
    if r.Claimed? {
      ClaimedIsContactable(db, p, now, ignoreDelay);
      RegularClaim(db, p, now, ignoreDelay);
      ReservedRowMeans(db, p, now, ignoreDelay);
      SkipsAreNotOfTheFuture(db, before, p, now);
      InsertKeepsStep(before.messages, db.steps, p, r.messageId, NewRow(p, Generating, r.stepId, r.channel, now, None));
    }
  }

  lemma ClaimedIsContactable(db: Db, p: Pair, now: int, ignoreDelay: bool)
    requires WellFormed(db) && Claim(db, p, now, ignoreDelay).1.Claimed?
    ensures Contactable(db, p)
  {
    hide *;
    GateMeans(db, p);
    if Gate(db, p).Some? {
      HeldBackReservesNothing(db, p, now, ignoreDelay);
    }
  }

  lemma SentRowStays(cfg: Config, s: World, step: Step, id: int)
    requires Enabled(cfg, s, step) && !step.Outreach? && id in s.messages && s.messages[id].status == Sent
    ensures id in After(cfg, s, step).messages
  {
  }

  lemma ServiceSettles(cfg: Config, s: World, step: Step, p: Pair)
    requires Enabled(cfg, s, step) && !step.Outreach? && NoBlankStatus(s.messages)
    requires forall id :: id in s.messages && OfPair(s.messages[id], p) ==> !LateResult(s, step, id)
    ensures Settled(s.messages, After(cfg, s, step).messages, p)
  {
    hide Enabled, After, LateResult, NoBlankStatus;
    var t, t' := s.messages, After(cfg, s, step).messages;
    ServiceKeepsRows(cfg, s, step);
    forall id | id in t' && IsTouch(t'[id], p)
      ensures id in t && IsTouch(t[id], p) && SameTouch(t[id], t'[id])
    {
      assert RowStays(t, t', id);
      ServiceSettlesTouch(cfg, s, step, p, id);
    }
    forall id | id in t && IsTouch(t[id], p) && t[id].status == Sent
      ensures id in t' && IsTouch(t'[id], p) && SameTouch(t[id], t'[id])
    {
      SentRowStays(cfg, s, step, id);
      ServiceSettlesTouch(cfg, s, step, p, id);
    }
  }

  lemma OutcomeSettles(cfg: Config, e: Engine, move: Move, p: Pair)
    requires Possible(cfg, e, move) && (move.CompleteTouch? || move.FailTouch?)
    ensures Settled(e.world.messages, Next(cfg, e, move).world.messages, p)
  {
    OutcomeCompletes(cfg, e, move);
    hide Complete, Fail;
  }

  lemma EditKeepsStep(t: Table, steps: StepTable, steps': StepTable, p: Pair)
    requires InStep(t, steps, p) && (steps' == steps || IsEdit(t, steps, steps'))
    ensures InStep(t, steps', p)
  {
    hide IsEdit, Before;
    forall id | id in t && IsTouch(t[id], p)
      ensures LinkedTo(steps', t[id], 1 + |Before(t, p, id)|)
    {
      assert LinkedTo(steps, t[id], 1 + |Before(t, p, id)|);
      if steps' != steps {
        EditedRuns.EditKeepsLinked(t, steps, steps', id, t[id].stepId.value);
      }
    }
  }

  lemma MoveKeepsStep(cfg: Config, e: Engine, move: Move, p: Pair)
    requires Sound(e) && Possible(cfg, e, move) && Undisturbing(e, move, p)
    requires OnePending(e.world.messages, p) && InStep(e.world.messages, e.steps, p)
    ensures InStep(Next(cfg, e, move).world.messages, Next(cfg, e, move).steps, p)
  {
    hide InStep, OnePending, Enabled, After, Claim, Complete, Fail, IsEdit, Regular, Contactable, KnownBatches, LateResult;
    var t, t' := e.world.messages, Next(cfg, e, move).world.messages;
    EditedRuns.MoveKeepsSteps(cfg, e, move);
    match move
    case Service(step) =>
      ServiceSettles(cfg, e.world, step, p);
      SettlingKeepsStep(t, t', e.steps, p);
    case ClaimTouch(q, ignoreDelay) =>
      if q == p {
        ClaimKeepsStep(DbOf(e), p, e.world.clock, ignoreDelay);
      } else {
        OtherClaimSettles(DbOf(e), q, p, e.world.clock, ignoreDelay);
        SettlingKeepsStep(t, t', e.steps, p);
      }
    case EditTables(_, _, _, steps) => EditKeepsStep(t, e.steps, steps, p);
    case RecordRow(m) =>
      RecordSettles(t, e.world.nextId, m, p);
      SettlingKeepsStep(t, t', e.steps, p);
    case _ =>
      OutcomeSettles(cfg, e, move, p);
      SettlingKeepsStep(t, t', e.steps, p);
  }

  lemma RecordSettles(t: Table, id: int, m: Message, p: Pair)
    requires !IsTouch(m, p) && id !in t
    ensures Settled(t, t[id := m], p)
  {
  }

  // ---- Whole runs ---------------------------------------------------------------------------------------

  ghost predicate UndisturbedFor(engines: seq<Engine>, moves: seq<Move>, p: Pair, k: nat)
    requires |engines| == |moves| + 1 && k < |engines|
  {
    forall i :: 0 <= i < k ==> Undisturbing(engines[i], moves[i], p)
  }

  lemma UndisturbingIsUnbroken(cfg: Config, e: Engine, move: Move, p: Pair)
    requires Undisturbing(e, move, p)
    ensures !MoveBreaks(cfg, e, move, p)
  {
    hide LateResult;
    if move.Service? {
      NoLateResultNoBreak(cfg, e, move.step, p);
    }
  }

  lemma {:induction false} RunKeepsStep(cfg: Config, engines: seq<Engine>, moves: seq<Move>, p: Pair, k: nat)
    requires EngineRun(cfg, engines, moves) && k < |engines| && UndisturbedFor(engines, moves, p, k)
    requires Untouched(engines[0].world.messages, p)
    ensures OnePending(engines[k].world.messages, p) && InStep(engines[k].world.messages, engines[k].steps, p)
  {
    hide Sound, Possible, Next, Undisturbing, OnePending, InStep, MoveBreaks;
    if k == 0 {
      UntouchedIsInStep(engines[0].world.messages, engines[0].steps, p);
    } else {
      RunKeepsStep(cfg, engines, moves, p, k - 1);
      RunIsSound(cfg, engines, moves, k - 1);
      assert Moves(cfg, engines[k - 1], moves[k - 1], engines[k]);
      MoveKeepsStep(cfg, engines[k - 1], moves[k - 1], p);
      UndisturbingIsUnbroken(cfg, engines[k - 1], moves[k - 1], p);
      MoveBreaksExactly(cfg, engines[k - 1], moves[k - 1], p);
    }
  }

  lemma UntouchedIsInStep(t: Table, steps: StepTable, p: Pair)
    requires Untouched(t, p)
    ensures OnePending(t, p) && InStep(t, steps, p)
  {
    assert forall id :: id in t && Counted(t[id], p) ==> IsTouch(t[id], p);
  }

  /** The k-th touch of a pair is its campaign's step k, in every state of every such run: it is linked to the step row
      with one number more than there are touches before it, and those have all been sent. */
  lemma TouchesAreTheStepsInOrder(cfg: Config, engines: seq<Engine>, moves: seq<Move>, p: Pair, k: nat, id: int)
    requires EngineRun(cfg, engines, moves) && k < |engines| && UndisturbedFor(engines, moves, p, k)
    requires Untouched(engines[0].world.messages, p)
    requires id in engines[k].world.messages && IsTouch(engines[k].world.messages[id], p)
    ensures var t := engines[k].world.messages;
            && LinkedTo(engines[k].steps, t[id], 1 + |Before(t, p, id)|)
            && forall x :: x in Before(t, p, id) ==> t[x].status == Sent
  {
    hide Sound, Possible, Next, Undisturbing, OnePending, IsTouch;
    RunKeepsStep(cfg, engines, moves, p, k);
    var t := engines[k].world.messages;
    forall x | x in Before(t, p, id)
      ensures t[x].status == Sent
    {
      EarlierIsSent(t, p, x, id);
    }
  }

  /** No step is taken twice: two touches of the pair are never linked to step rows of one number. */
  lemma NoStepTwice(cfg: Config, engines: seq<Engine>, moves: seq<Move>, p: Pair, k: nat, a: int, b: int, n: int)
    requires EngineRun(cfg, engines, moves) && k < |engines| && UndisturbedFor(engines, moves, p, k)
    requires Untouched(engines[0].world.messages, p)
    requires var t := engines[k].world.messages;
             && a in t && IsTouch(t[a], p) && LinkedTo(engines[k].steps, t[a], n)
             && b in t && IsTouch(t[b], p) && LinkedTo(engines[k].steps, t[b], n)
    ensures a == b
  {
    hide EngineRun, IsTouch, UndisturbedFor;
    TouchesAreTheStepsInOrder(cfg, engines, moves, p, k, a);
    TouchesAreTheStepsInOrder(cfg, engines, moves, p, k, b);
    var t := engines[k].world.messages;
    if a != b {
      if t[a].createdAt < t[b].createdAt || (t[a].createdAt == t[b].createdAt && a < b) {
        MoreBefore(t, p, a, b);
      } else {
        MoreBefore(t, p, b, a);
      }
    }
  }

  lemma MoreBefore(t: Table, p: Pair, a: int, b: int)
    requires a in t && b in t && IsTouch(t[a], p)
    requires t[a].createdAt < t[b].createdAt || (t[a].createdAt == t[b].createdAt && a < b)
    ensures |Before(t, p, a)| < |Before(t, p, b)|
  {
    hide IsTouch;
    assert forall x :: x in Before(t, p, a) ==> x in Before(t, p, b) - {a};
    SubsetIsSmaller(Before(t, p, a), Before(t, p, b), a);
  }

  /** What a claim reserves in such a run: the step after as many as the pair has had touches. */
  lemma ClaimsFollowTheSteps(cfg: Config, engines: seq<Engine>, moves: seq<Move>, p: Pair, k: nat, now: int, ignoreDelay: bool)
    requires EngineRun(cfg, engines, moves) && k < |engines| && UndisturbedFor(engines, moves, p, k)
    requires Untouched(engines[0].world.messages, p) && Regular(DbOf(engines[k]), p)
    requires Claim(DbOf(engines[k]), p, now, ignoreDelay).1.Claimed?
    ensures Claim(DbOf(engines[k]), p, now, ignoreDelay).1.number == |TouchSet(engines[k].world.messages, p)| + 1
  {
    hide Possible, Next, Undisturbing, OnePending, InStep, Claim, Regular;
    RunKeepsStep(cfg, engines, moves, p, k);
    RunIsSound(cfg, engines, moves, k);
    RegularClaim(DbOf(engines[k]), p, now, ignoreDelay);
  }
}

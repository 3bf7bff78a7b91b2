/** The sequence engine and the draft service together with edits of the sequences they work through. */
module EditedRuns {
  import opened Common
  import opened Messages
  import opened Steps
  import opened Outreach
  import opened StepSearch
  import opened TouchPositions
  import opened TouchRuns
  import opened SequenceEdits
  import opened Drafts

  /** From state `j` to state `k` the step rows change by sequence edits only. */
  ghost predicate OnlyEdits(engines: seq<Engine>, moves: seq<Move>, j: nat, k: nat)
    requires |engines| == |moves| + 1 && k < |engines|
  {
    forall i: nat :: j <= i < k && moves[i].EditTables? ==>
      moves[i].steps == engines[i].steps || IsEdit(engines[i].world.messages, engines[i].steps, moves[i].steps)
  }

  lemma ClaimKeepsSteps(cfg: Config, e: Engine, p: Pair, ignoreDelay: bool)
    requires Sound(e)
    ensures Claim(DbOf(e), p, e.world.clock, ignoreDelay).0.steps == e.steps
  {
    hide FindNext, SameHistory;
    var _ := ClaimShape(DbOf(e), p, e.world.clock, ignoreDelay);
  }

  /** Only edits change the step rows. */
  lemma MoveKeepsSteps(cfg: Config, e: Engine, move: Move)
    requires Sound(e) && Possible(cfg, e, move)
    ensures Next(cfg, e, move).steps == if move.EditTables? then move.steps else e.steps
  {
    if move.ClaimTouch? {
      ClaimKeepsSteps(cfg, e, move.p, move.ignoreDelay);
    }
  }

  /** The step row a message is linked to stays, with its number, as long as the message does, however late the
      workers and whatever the decisions of the run. */
  lemma {:induction false} LinkedStepStays(
      cfg: Config, engines: seq<Engine>, moves: seq<Move>, j: nat, k: nat, id: int, step: int)
    requires EngineRun(cfg, engines, moves) && j <= k < |engines| && OnlyEdits(engines, moves, j, k)
    requires id in engines[j].world.messages && engines[j].world.messages[id].stepId == Some(step) && step in engines[j].steps
    requires id < engines[j].world.nextId && id in engines[k].world.messages
    ensures engines[k].world.messages[id].stepId == Some(step)
    ensures step in engines[k].steps && SameStep(engines[j].steps[step], engines[k].steps[step])
    decreases k
  {
    hide Sound, Possible, Next, IsEdit;
    TouchesOverRun(cfg, engines, moves, j, k);
    if k > j {
      var e, move := engines[k - 1], moves[k - 1];
      TouchesOverRun(cfg, engines, moves, j, k - 1);
      TouchesOverRun(cfg, engines, moves, k - 1, k);
      RunIsSound(cfg, engines, moves, k - 1);
      assert Moves(cfg, e, move, engines[k]);
      MoveKeepsSteps(cfg, e, move);
      LinkedStepStays(cfg, engines, moves, j, k - 1, id, step);
      if move.EditTables? && move.steps != e.steps {
        EditKeepsLinked(e.world.messages, e.steps, move.steps, id, step);
      }
    }
  }

  lemma EditKeepsLinked(messages: Table, steps: StepTable, steps': StepTable, id: int, step: int)
    requires IsEdit(messages, steps, steps') && id in messages && messages[id].stepId == Some(step) && step in steps
    ensures step in steps' && SameStep(steps[step], steps'[step])
  {
    var nextId, campaign, request :| Replaced(steps, nextId, messages, campaign, request, steps');
    EditKeepsReferences(steps, nextId, messages, campaign, request, steps', step);
  }

  /** Sequence position under edits: in every run in which step rows change by sequence edits only, once a
      linked reservation of step s has been sent, and until its pair gets another touch, the lead's next step
      is s + 1. */
  lemma SentReservationAdvancesUnderEdits(cfg: Config, engines: seq<Engine>, moves: seq<Move>, j: nat, k: nat)
    requires EngineRun(cfg, engines, moves) && j < k < |engines| && moves[j].ClaimTouch?
    requires OnlyEdits(engines, moves, j, k)
    requires forall i :: j < i < k ==> Leaves(moves[i], moves[j].p)
    requires var r := Claim(DbOf(engines[j]), moves[j].p, engines[j].world.clock, moves[j].ignoreDelay).1;
             && r.Claimed? && r.stepId.Some?
             && r.messageId in engines[k].world.messages && engines[k].world.messages[r.messageId].status == Sent
    ensures NextNumber(DbOf(engines[k]), moves[j].p)
            == Claim(DbOf(engines[j]), moves[j].p, engines[j].world.clock, moves[j].ignoreDelay).1.number + 1
  {
    hide NextNumber, Possible, IsEdit, FindNext, KnownBatches;
    var db, p, now, ignoreDelay := DbOf(engines[j]), moves[j].p, engines[j].world.clock, moves[j].ignoreDelay;
    var r := Claim(db, p, now, ignoreDelay).1;
    RunIsSound(cfg, engines, moves, j);
    RunIsSound(cfg, engines, moves, j + 1);
    assert Moves(cfg, engines[j], moves[j], engines[j + 1]);
    ReservedRow(db, p, now, ignoreDelay);
    ClaimKeepsSteps(cfg, engines[j], p, ignoreDelay);
    LinkedStepStays(cfg, engines, moves, j + 1, k, r.messageId, r.stepId.value);
    SentReservationAdvances(cfg, engines, moves, j, k);
  }
}

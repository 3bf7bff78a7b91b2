/** At most one unresolved touch: every run of the sequence engine together with the draft service. */
module TouchRuns {
  import opened Common
  import opened Messages
  import opened Steps
  import opened Drafts
  import opened SchedulerRuns
  import opened LifecycleRuns
  import opened Outreach
  import opened StepSearch
  import opened TouchPositions

  /** The draft service's world and the tables only the sequence engine reads. */
  datatype Engine = Engine(
    world: World,
    leads: map<int, Lead>,
    members: map<(int, int), Member>,
    defs: map<(int, int), Definition>,
    steps: StepTable)

  function DbOf(e: Engine): Db {
    Db(e.world.messages, e.world.nextId, e.leads, e.members, e.defs, e.steps)
  }

  /** One committed transaction. `Edit` stands for everything else that writes the engine's own tables:
      imports, replies, touch counts, edits of the sequence. */
  datatype Move =
    | Service(step: Step)
    | ClaimTouch(p: Pair, ignoreDelay: bool)
    | CompleteTouch(id: int, sent: bool, subject: string, body: string, channel: string)
    | FailTouch(id: int, error: string)
    | RecordRow(m: Message)
    | EditTables(leads: map<int, Lead>, members: map<(int, int), Member>, defs: map<(int, int), Definition>, steps: StepTable)

  /** Every other creator of rows: inbound mail, failed attempts, drafts written elsewhere. */
  predicate Recordable(e: Engine, m: Message) {
    FreshRow(m) && (m.outbound ==> m.status != NoStatus) && m.createdAt <= e.world.clock
  }

  /** A reservation is completed by the run that holds it, while it is still GENERATING. The steps of the draft
      service are only asked to be enabled: workers may be late and decisions may overlap with sends. */
  ghost predicate Possible(cfg: Config, e: Engine, move: Move) {
    match move
    case Service(step) => !step.Outreach? && Enabled(cfg, e.world, step)
    case CompleteTouch(id, _, _, _, _) => id in e.world.messages && e.world.messages[id].status == Generating
    case RecordRow(m) => Recordable(e, m)
    case EditTables(leads, members, defs, steps) => WellFormed(DbOf(Engine(e.world, leads, members, defs, steps)))
    case _ => true
  }

  function WithMessages(e: Engine, t: Table): Engine { e.(world := e.world.(messages := t)) }

  ghost function Next(cfg: Config, e: Engine, move: Move): Engine
    requires Possible(cfg, e, move)
  {
    match move
    case Service(step) => e.(world := After(cfg, e.world, step))
    case ClaimTouch(p, ignoreDelay) =>
      var db := Claim(DbOf(e), p, e.world.clock, ignoreDelay).0;
      Engine(e.world.(messages := db.messages, nextId := db.nextId), db.leads, db.members, db.defs, db.steps)
    case CompleteTouch(id, sent, subject, body, channel) =>
      WithMessages(e, Complete(e.world.messages, id, sent, subject, body, channel, e.world.clock))
    case FailTouch(id, error) => WithMessages(e, Fail(e.world.messages, id, error))
    case RecordRow(m) => e.(world := e.world.(messages := e.world.messages[e.world.nextId := m], nextId := e.world.nextId + 1))
    case EditTables(leads, members, defs, steps) => Engine(e.world, leads, members, defs, steps)
  }

  // ---- What holds in every run -----------------------------------------------------------------

  ghost predicate NoBlankStatus(t: Table) { forall id :: id in t && t[id].outbound ==> t[id].status != NoStatus }

  ghost predicate KnownBatches(s: World) { forall w, id :: Has(s, w, id) ==> id < s.nextId }

  /** Ids are known, rows are not of the future, and outbound rows have a status. */
  ghost predicate Sound(e: Engine) {
    && WellFormed(DbOf(e)) && NoBlankStatus(e.world.messages) && CreatedBy(e.world.messages, e.world.clock)
    && KnownBatches(e.world)
  }

  /** Known rows stay the touches they are. */
  ghost predicate KeepsTouches(t: Table, nextId: int, t': Table) {
    forall id :: id in t' && id < nextId ==> id in t && SameTouch(t[id], t'[id])
  }

  /** The row is the touch it was, and has a status if it had one. */
  ghost predicate RowStays(t: Table, t': Table, id: int)
    requires id in t'
  {
    id in t && SameTouch(t[id], t'[id]) && (t'[id].status == NoStatus ==> t[id].status == NoStatus)
  }

  lemma SendKeepsRow(cfg: Config, s: World, step: Step, id: int)
    requires Enabled(cfg, s, step) && (step.Begin? || step.End? || step.ApproveNow? || step.StartBatch?)
    requires id in After(cfg, s, step).messages
    ensures RowStays(s.messages, After(cfg, s, step).messages, id)
  {
  }

  lemma DecisionKeepsTouch(cfg: Config, s: World, step: Step, id: int)
    requires Enabled(cfg, s, step) && !step.Begin? && !step.End? && !step.ApproveNow? && !step.StartBatch? && !step.Outreach?
    requires id in After(cfg, s, step).messages
    ensures RowStays(s.messages, After(cfg, s, step).messages, id)
  {
  }

  /** No step of the draft service makes a row, or another touch or a blank row of one, in any state at all. */
  lemma ServiceKeepsRows(cfg: Config, s: World, step: Step)
    requires Enabled(cfg, s, step) && !step.Outreach?
    ensures After(cfg, s, step).nextId == s.nextId && After(cfg, s, step).clock >= s.clock
    ensures forall id :: id in After(cfg, s, step).messages ==> RowStays(s.messages, After(cfg, s, step).messages, id)
  {
    forall id | id in After(cfg, s, step).messages
      ensures RowStays(s.messages, After(cfg, s, step).messages, id)
    {
      hide RowStays, After, Enabled;
      if step.Begin? || step.End? || step.ApproveNow? || step.StartBatch? {
        SendKeepsRow(cfg, s, step, id);
      } else {
        DecisionKeepsTouch(cfg, s, step, id);
      }
    }
  }

  lemma ServiceKeepsKnown(cfg: Config, s: World, step: Step)
    requires Enabled(cfg, s, step) && !step.Outreach?
    requires KnownBatches(s) && forall id :: id in s.messages ==> id < s.nextId
    ensures KnownBatches(After(cfg, s, step))
  {
    var s' := After(cfg, s, step);
    forall w, id | Has(s', w, id)
      ensures id < s'.nextId
    {
      assert !Has(s, w, id) ==> id in s.messages;
    }
  }

  lemma ServiceKeepsSound(cfg: Config, e: Engine, step: Step)
    requires Sound(e) && Possible(cfg, e, Service(step))
    ensures Sound(Next(cfg, e, Service(step)))
  {
    hide Enabled, After, KnownBatches;
    ServiceKeepsRows(cfg, e.world, step);
    ServiceKeepsKnown(cfg, e.world, step);
  }

  /** What a claim leaves: the rows there were, failed skips and the reservation. */
  lemma SkipsThenInsertKeepsRows(db: Db, p: Pair, now: int, ignoreDelay: bool, before: Db, db': Db, r: ClaimResult)
    requires WellFormed(db) && SkipsThenInsert(db, p, now, ignoreDelay, before, db', r)
    ensures WellFormed(db') && db.nextId <= db'.nextId
    ensures NoBlankStatus(db.messages) ==> NoBlankStatus(db'.messages)
    ensures CreatedBy(db.messages, now) ==> CreatedBy(db'.messages, now)
    ensures KeepsTouches(db.messages, db.nextId, db'.messages)
  {
    hide FindNext, SameHistory, OfPair;
  }

  /** More rows, the same batches. */
  lemma SameBatches(s: World, s': World)
    requires s'.workers == s.workers && s.nextId <= s'.nextId
    ensures forall w, id :: Has(s', w, id) <==> Has(s, w, id)
    ensures KnownBatches(s) ==> KnownBatches(s')
  {
  }

  lemma ClaimKeepsSound(cfg: Config, e: Engine, p: Pair, ignoreDelay: bool)
    requires Sound(e)
    ensures Sound(Next(cfg, e, ClaimTouch(p, ignoreDelay)))
    ensures e.world.nextId <= Next(cfg, e, ClaimTouch(p, ignoreDelay)).world.nextId
    ensures KeepsTouches(e.world.messages, e.world.nextId, Next(cfg, e, ClaimTouch(p, ignoreDelay)).world.messages)
  {
    hide FindNext, SameHistory, Claim;
    var before := ClaimShape(DbOf(e), p, e.world.clock, ignoreDelay);
    var r := Claim(DbOf(e), p, e.world.clock, ignoreDelay);
    assert DbOf(Next(cfg, e, ClaimTouch(p, ignoreDelay))) == r.0;
    SkipsThenInsertKeepsRows(DbOf(e), p, e.world.clock, ignoreDelay, before, r.0, r.1);
    hide SkipsThenInsert, KnownBatches, WellFormed, CreatedBy, NoBlankStatus, KeepsTouches;
    SameBatches(e.world, Next(cfg, e, ClaimTouch(p, ignoreDelay)).world);
  }

  lemma MoveKeepsSound(cfg: Config, e: Engine, move: Move)
    requires Sound(e) && Possible(cfg, e, move)
    ensures Sound(Next(cfg, e, move))
    ensures e.world.nextId <= Next(cfg, e, move).world.nextId
    ensures KeepsTouches(e.world.messages, e.world.nextId, Next(cfg, e, move).world.messages)
  {
    hide Sound, KeepsTouches, Enabled, After, Claim, Complete, Fail;
    match move
    case Service(step) =>
      ServiceKeepsTouches(cfg, e.world, step);
      ServiceKeepsSound(cfg, e, step);
    case ClaimTouch(p, ignoreDelay) => ClaimKeepsSound(cfg, e, p, ignoreDelay);
    case RecordRow(m) => RecordKeepsSound(cfg, e, m);
    case EditTables(_, _, _, _) => EditKeepsSound(cfg, e, move);
    case _ => OutcomeKeepsSound(cfg, e, move);
  }

  lemma ServiceKeepsTouches(cfg: Config, s: World, step: Step)
    requires Enabled(cfg, s, step) && !step.Outreach?
    ensures After(cfg, s, step).nextId == s.nextId
    ensures KeepsTouches(s.messages, s.nextId, After(cfg, s, step).messages)
  {
    hide Enabled, After;
    ServiceKeepsRows(cfg, s, step);
  }

  lemma EditKeepsSound(cfg: Config, e: Engine, move: Move)
    requires Sound(e) && Possible(cfg, e, move) && move.EditTables?
    ensures Sound(Next(cfg, e, move))
    ensures KeepsTouches(e.world.messages, e.world.nextId, Next(cfg, e, move).world.messages)
  {
    hide KnownBatches;
    SameBatches(e.world, Next(cfg, e, move).world);
  }

  lemma RecordKeepsSound(cfg: Config, e: Engine, m: Message)
    requires Sound(e) && Recordable(e, m)
    ensures Sound(Next(cfg, e, RecordRow(m)))
    ensures KeepsTouches(e.world.messages, e.world.nextId, Next(cfg, e, RecordRow(m)).world.messages)
  {
    hide KnownBatches;
    SameBatches(e.world, Next(cfg, e, RecordRow(m)).world);
  }

  lemma OutcomeKeepsSound(cfg: Config, e: Engine, move: Move)
    requires Sound(e) && Possible(cfg, e, move) && (move.CompleteTouch? || move.FailTouch?)
    ensures Sound(Next(cfg, e, move))
    ensures KeepsTouches(e.world.messages, e.world.nextId, Next(cfg, e, move).world.messages)
  {
    OutcomeCompletes(cfg, e, move);
    SameBatches(e.world, Next(cfg, e, move).world);
    hide KnownBatches, Complete, Fail;
  }

  // ---- Exactly when a pair gets a second unresolved touch ------------------------------------------

  /** Of two counted touches of the pair the earlier one has been sent. */
  ghost predicate OnePending(t: Table, p: Pair) {
    forall a, b :: a in t && b in t && Counted(t[a], p) && Counted(t[b], p) && Earlier(t, a, b) ==> t[a].status == Sent
  }

  /** The row a late result leaves. */
  function ResultRow(cfg: Config, s: World, step: Step, id: int): Message
    requires LateResult(s, step, id)
  {
    AfterSend(cfg, s.messages[id], s.workers[step.w].read.value, s.workers[step.w].actor, s.clock, step.outcome)
  }

  /** A late result for touch `id` of the pair meets touch `x`: it makes `id` count, unsent before a later touch, or
      at all after an earlier unsent one. */
  ghost predicate ResultMeets(cfg: Config, s: World, step: Step, p: Pair, id: int, x: int) {
    && LateResult(s, step, id) && id in s.messages && OfPair(s.messages[id], p)
    && x in s.messages && x != id && Counted(s.messages[x], p)
    && var m := ResultRow(cfg, s, step, id);
       && Counted(m, p)
       && ((Earlier(s.messages, id, x) && m.status != Sent) || (Earlier(s.messages, x, id) && s.messages[x].status != Sent))
  }

  ghost predicate ServiceBreaks(cfg: Config, s: World, step: Step, p: Pair) {
    exists id, x :: ResultMeets(cfg, s, step, p, id, x)
  }

  /** Without a late result a touch of the pair starts to count for nobody, and SENT stays SENT. */
  lemma ServiceSettlesTouch(cfg: Config, s: World, step: Step, p: Pair, id: int)
    requires Enabled(cfg, s, step) && !step.Outreach? && NoBlankStatus(s.messages)
    requires id in After(cfg, s, step).messages && !LateResult(s, step, id)
    ensures id in s.messages && SameTouch(s.messages[id], After(cfg, s, step).messages[id])
    ensures Counted(After(cfg, s, step).messages[id], p) ==> Counted(s.messages[id], p)
    ensures s.messages[id].status == Sent ==> After(cfg, s, step).messages[id].status == Sent
  {
    hide Enabled, After, LateResult;
    ServiceKeepsRows(cfg, s, step);
    if Resolved(s.messages[id].status) {
      ResolutionChangesExactlyByLateResult(cfg, s, step, id);
    }
  }

  lemma LateResultWrites(cfg: Config, s: World, step: Step, id: int)
    requires Enabled(cfg, s, step) && LateResult(s, step, id)
    ensures id in s.messages && After(cfg, s, step).messages == s.messages[id := ResultRow(cfg, s, step, id)]
    ensures SameTouch(s.messages[id], ResultRow(cfg, s, step, id))
    ensures forall other :: LateResult(s, step, other) ==> other == id
  {
  }

  lemma BreakingIsMeeting(cfg: Config, s: World, step: Step, p: Pair, a: int, b: int)
    requires Enabled(cfg, s, step) && !step.Outreach? && OnePending(s.messages, p) && NoBlankStatus(s.messages)
    requires var t' := After(cfg, s, step).messages;
             a in t' && b in t' && Counted(t'[a], p) && Counted(t'[b], p) && Earlier(t', a, b) && t'[a].status != Sent
    ensures ServiceBreaks(cfg, s, step, p)
  {
    hide Enabled, After, LateResult, ResultRow, NoBlankStatus, Counted;
    ServiceKeepsRows(cfg, s, step);
    assert Earlier(s.messages, a, b);
    if LateResult(s, step, a) {
      LateResultWrites(cfg, s, step, a);
      ServiceSettlesTouch(cfg, s, step, p, b);
      SameTouchSamePair(s.messages[a], ResultRow(cfg, s, step, a), p);
      assert ResultMeets(cfg, s, step, p, a, b);
    } else if LateResult(s, step, b) {
      LateResultWrites(cfg, s, step, b);
      ServiceSettlesTouch(cfg, s, step, p, a);
      SameTouchSamePair(s.messages[b], ResultRow(cfg, s, step, b), p);
      assert ResultMeets(cfg, s, step, p, b, a);
    } else {
      ServiceSettlesTouch(cfg, s, step, p, a);
      ServiceSettlesTouch(cfg, s, step, p, b);
    }
  }

  lemma SameTouchSamePair(m: Message, m': Message, p: Pair)
    requires SameTouch(m, m') && Counted(m', p)
    ensures OfPair(m, p)
  {
  }

  /** Exactly when a step of the draft service gives the pair a touch out of order: by a late result. */
  lemma ServiceBreaksExactly(cfg: Config, s: World, step: Step, p: Pair)
    requires Enabled(cfg, s, step) && !step.Outreach? && OnePending(s.messages, p) && NoBlankStatus(s.messages)
    ensures !OnePending(After(cfg, s, step).messages, p) <==> ServiceBreaks(cfg, s, step, p)
  {
    hide Enabled, After, LateResult, ResultRow, NoBlankStatus, Counted;
    var t, t' := s.messages, After(cfg, s, step).messages;
    if id, x :| ResultMeets(cfg, s, step, p, id, x) {
      LateResultWrites(cfg, s, step, id);
      assert Earlier(t', id, x) == Earlier(t, id, x) && Earlier(t', x, id) == Earlier(t, x, id);
      assert !OnePending(t', p);
    } else {
      forall a, b | a in t' && b in t' && Counted(t'[a], p) && Counted(t'[b], p) && Earlier(t', a, b)
        ensures t'[a].status == Sent
      {
        if t'[a].status != Sent {
          BreakingIsMeeting(cfg, s, step, p, a, b);
        }
      }
    }
  }

  /** A new row meets a touch of its pair out of order. */
  predicate RowMeets(t: Table, m: Message, p: Pair, x: int) {
    && x in t && Counted(t[x], p) && Counted(m, p)
    && ((m.createdAt < t[x].createdAt && m.status != Sent) || (t[x].createdAt <= m.createdAt && t[x].status != Sent))
  }

  /** Exactly when a new row gives the pair a touch out of order. */
  lemma InsertBreaksExactly(t: Table, id: int, m: Message, p: Pair)
    requires OnePending(t, p) && forall x :: x in t ==> x < id
    ensures !OnePending(t[id := m], p) <==> exists x :: RowMeets(t, m, p, x)
  {
    hide Counted;
    var t' := t[id := m];
    if x :| RowMeets(t, m, p, x) {
      assert Earlier(t', x, id) || Earlier(t', id, x);
      assert !OnePending(t', p);
    } else {
      forall a, b | a in t' && b in t' && Counted(t'[a], p) && Counted(t'[b], p) && Earlier(t', a, b)
        ensures t'[a].status == Sent
      {
        if a == id {
          assert !RowMeets(t, m, p, b);
        } else if b == id {
          assert !RowMeets(t, m, p, a);
        } else {
          assert Earlier(t, a, b);
        }
      }
    }
  }

  ghost predicate MoveBreaks(cfg: Config, e: Engine, move: Move, p: Pair) {
    match move
    case Service(step) => ServiceBreaks(cfg, e.world, step, p)
    case RecordRow(m) => exists x :: RowMeets(e.world.messages, m, p, x)
    case _ => false
  }

  /** The gate lets a claim through only when every counted touch of the pair has been sent. */
  lemma OpenGateMeansAllSent(db: Db, p: Pair)
    requires OnePending(db.messages, p) && Gate(db, p).None?
    ensures forall id :: id in Touches(db.messages, p) ==> db.messages[id].status == Sent
  {
    var touches := Touches(db.messages, p);
    if touches != {} {
      assert IsLatest(db.messages, touches, Latest(db.messages, touches));
    }
  }

  /** Rows that do not count for the pair keep its order. */
  lemma SkipsKeepPending(db: Db, before: Db, q: Pair, p: Pair, now: int)
    requires OnePending(db.messages, p) && OnlySkips(db, before, q, now)
    ensures OnePending(before.messages, p)
  {
    forall a, b | a in before.messages && b in before.messages && Counted(before.messages[a], p)
                  && Counted(before.messages[b], p) && Earlier(before.messages, a, b)
      ensures before.messages[a].status == Sent
    {
      assert a in db.messages && b in db.messages;
      assert Counted(db.messages[a], p) && Counted(db.messages[b], p) && Earlier(db.messages, a, b);
    }
  }

  /** A reservation inserted through an open gate keeps every pair in order. */
  lemma ReservingKeepsPending(db: Db, q: Pair, p: Pair, m: Message, now: int)
    requires OnePending(db.messages, p) && WellFormed(db) && Gate(db, q).None? && CreatedBy(db.messages, now)
    requires OfPair(m, q) && m.status == Generating && m.createdAt == now
    ensures OnePending(Insert(db, m).messages, p)
  {
    forall x | RowMeets(db.messages, m, p, x)
      ensures false
    {
      assert p == q && x in Touches(db.messages, p);
      OpenGateMeansAllSent(db, p);
    }
    InsertBreaksExactly(db.messages, db.nextId, m, p);
  }

  /** A claim keeps every pair in order, whichever pair it is for. */
  lemma ClaimKeepsPending(db: Db, q: Pair, p: Pair, now: int, ignoreDelay: bool)
    requires OnePending(db.messages, p) && WellFormed(db) && CreatedBy(db.messages, now)
    ensures OnePending(Claim(db, q, now, ignoreDelay).0.messages, p)
  {
    hide OnePending, Gate, NextNumber, WellFormed, SameHistory, Claim;
    var before := ClaimShape(db, q, now, ignoreDelay);
    var r := Claim(db, q, now, ignoreDelay).1;
    SkipsKeepPending(db, before, q, p, now);
    if r.Claimed? {
      SkipsAreNotOfTheFuture(db, before, q, now);
      ReservingKeepsPending(before, q, p, NewRow(q, Generating, r.stepId, r.channel, now, None), now);
    }
  }

  lemma SkipsAreNotOfTheFuture(db: Db, before: Db, q: Pair, now: int)
    requires CreatedBy(db.messages, now) && OnlySkips(db, before, q, now)
    ensures CreatedBy(before.messages, now)
  {
  }

  /** Completing or failing a reservation keeps every pair in order. */
  lemma ResolvingKeepsPending(t: Table, id: int, m': Message, p: Pair)
    requires OnePending(t, p) && id in t && Completes(t[id], m')
    ensures OnePending(t[id := m'], p)
  {
    var t' := t[id := m'];
    forall a, b | a in t' && b in t' && Counted(t'[a], p) && Counted(t'[b], p) && Earlier(t', a, b)
      ensures t'[a].status == Sent
    {
      assert Counted(t[a], p) && Counted(t[b], p) && Earlier(t, a, b);
    }
  }

  /** The row a completion or a failure leaves. */
  lemma OutcomeCompletes(cfg: Config, e: Engine, move: Move)
    requires Possible(cfg, e, move) && (move.CompleteTouch? || move.FailTouch?)
    ensures var t, t' := e.world.messages, Next(cfg, e, move).world.messages;
            t' == t || (move.id in t && move.id in t' && Completes(t[move.id], t'[move.id]) && t' == t[move.id := t'[move.id]])
  {
  }

  /** Exactly which moves give a pair a touch out of order: late results and rows recorded beside an unsent
      touch. Claims, completions, failures and edits never do. */
  lemma MoveBreaksExactly(cfg: Config, e: Engine, move: Move, p: Pair)
    requires Sound(e) && Possible(cfg, e, move) && OnePending(e.world.messages, p)
    ensures !OnePending(Next(cfg, e, move).world.messages, p) <==> MoveBreaks(cfg, e, move, p)
  {
    hide OnePending, Claim, ServiceBreaks, RowMeets, Enabled, After, Complete, Fail, KnownBatches;
    match move
    case Service(step) => ServiceBreaksExactly(cfg, e.world, step, p);
    case RecordRow(m) => InsertBreaksExactly(e.world.messages, e.world.nextId, m, p);
    case ClaimTouch(q, ignoreDelay) => ClaimKeepsPending(DbOf(e), q, p, e.world.clock, ignoreDelay);
    case EditTables(_, _, _, _) =>
    case _ =>
      OutcomeCompletes(cfg, e, move);
      if Next(cfg, e, move).world.messages != e.world.messages {
        ResolvingKeepsPending(e.world.messages, move.id, Next(cfg, e, move).world.messages[move.id], p);
      }
  }

  // ---- Whole runs ------------------------------------------------------------------------------

  ghost predicate Moves(cfg: Config, e: Engine, move: Move, e': Engine) {
    Possible(cfg, e, move) && e' == Next(cfg, e, move)
  }

  ghost predicate EngineRun(cfg: Config, engines: seq<Engine>, moves: seq<Move>) {
    && |engines| == |moves| + 1
    && Sound(engines[0])
    && forall k :: 0 <= k < |moves| ==> Moves(cfg, engines[k], moves[k], engines[k + 1])
  }

  lemma {:induction false} RunIsSound(cfg: Config, engines: seq<Engine>, moves: seq<Move>, k: nat)
    requires EngineRun(cfg, engines, moves) && k < |engines|
    ensures Sound(engines[k])
  {
    hide Sound, Possible, Next;
    if k > 0 {
      RunIsSound(cfg, engines, moves, k - 1);
      assert Moves(cfg, engines[k - 1], moves[k - 1], engines[k]);
      MoveKeepsSound(cfg, engines[k - 1], moves[k - 1]);
    }
  }

  /** The first `k` moves leave the pair in order. What they do to other pairs does not matter. */
  ghost predicate Unbroken(cfg: Config, engines: seq<Engine>, moves: seq<Move>, p: Pair, k: nat)
    requires |engines| == |moves| + 1 && k < |engines|
  {
    OnePending(engines[0].world.messages, p) && forall i :: 0 <= i < k ==> !MoveBreaks(cfg, engines[i], moves[i], p)
  }

  lemma {:induction false} RunKeepsPending(cfg: Config, engines: seq<Engine>, moves: seq<Move>, p: Pair, k: nat)
    requires EngineRun(cfg, engines, moves) && k < |engines| && Unbroken(cfg, engines, moves, p, k)
    ensures OnePending(engines[k].world.messages, p)
  {
    hide Sound, Possible, Next, OnePending, MoveBreaks;
    if k > 0 {
      RunKeepsPending(cfg, engines, moves, p, k - 1);
      RunIsSound(cfg, engines, moves, k - 1);
      assert Moves(cfg, engines[k - 1], moves[k - 1], engines[k]);
      MoveBreaksExactly(cfg, engines[k - 1], moves[k - 1], p);
    }
  }

  /** Waiting for a decision, for its time, or for its text. */
  predicate Unresolved(m: Message) { m.status in {Draft, Scheduled, Sending, Generating} }

  /** At most one unresolved touch: in every state of every run without such a move for this pair, the pair has at
      most one counted touch that is not SENT, and it is the pair's latest counted touch. */
  lemma OneUnresolvedTouch(cfg: Config, engines: seq<Engine>, moves: seq<Move>, k: nat, p: Pair, id: int)
    requires EngineRun(cfg, engines, moves) && k < |engines| && Unbroken(cfg, engines, moves, p, k)
    requires var t := engines[k].world.messages; id in t && OfPair(t[id], p) && Unresolved(t[id])
    ensures var t := engines[k].world.messages;
            && id in Touches(t, p) && IsLatest(t, Touches(t, p), id)
            && forall other :: other in t && OfPair(t[other], p) && Unresolved(t[other]) ==> other == id
  {
    RunKeepsPending(cfg, engines, moves, p, k);
    UnresolvedIsLatest(engines[k].world.messages, p, id);
  }

  lemma UnresolvedIsLatest(t: Table, p: Pair, id: int)
    requires OnePending(t, p) && id in t && OfPair(t[id], p) && Unresolved(t[id])
    ensures id in Touches(t, p) && IsLatest(t, Touches(t, p), id)
    ensures forall other :: other in t && OfPair(t[other], p) && Unresolved(t[other]) ==> other == id
  {
    assert forall x :: x in Touches(t, p) && x != id ==> Earlier(t, x, id) || Earlier(t, id, x);
    forall other | other in t && OfPair(t[other], p) && Unresolved(t[other])
      ensures other == id
    {
      assert other in Touches(t, p);
    }
  }

  /** No duplicate sends: in such a run, while a pair has an unresolved touch, a claim for it is refused and
      changes nothing, whichever process makes it. A touch left GENERATING blocks its lead in the same way. */
  lemma UnresolvedTouchBlocksClaims(
      cfg: Config, engines: seq<Engine>, moves: seq<Move>, k: nat, p: Pair, id: int, now: int, ignoreDelay: bool)
    requires EngineRun(cfg, engines, moves) && k < |engines| && Unbroken(cfg, engines, moves, p, k)
    requires var t := engines[k].world.messages; id in t && OfPair(t[id], p) && Unresolved(t[id])
    ensures Claim(DbOf(engines[k]), p, now, ignoreDelay).0 == DbOf(engines[k])
    ensures Claim(DbOf(engines[k]), p, now, ignoreDelay).1.NotClaimed?
  {
    OneUnresolvedTouch(cfg, engines, moves, k, p, id);
    var db := DbOf(engines[k]);
    GateIsMayBeContacted(db, p);
    assert Gate(db, p).Some?;
  }

  /** A step without a late result for any message of the pair leaves the pair in order. */
  lemma NoLateResultNoBreak(cfg: Config, e: Engine, step: Step, p: Pair)
    requires forall id :: id in e.world.messages && OfPair(e.world.messages[id], p) ==> !LateResult(e.world, step, id)
    ensures !MoveBreaks(cfg, e, Service(step), p)
  {
    hide ResultRow;
  }

  // ---- Positions over whole runs -----------------------------------------------------------------

  /** The move neither claims for the pair nor records a counted row of it. */
  predicate Leaves(move: Move, p: Pair) {
    (move.ClaimTouch? ==> move.p != p) && (move.RecordRow? ==> !Counted(move.m, p))
  }

  /** From id `from` on the pair has nothing but the reservation and failed rows that nobody is sending. */
  ghost predicate OnlyFailures(s: World, p: Pair, from: int, reserved: int) {
    forall id :: id in s.messages && id >= from && id != reserved && OfPair(s.messages[id], p) ==>
      s.messages[id].status == Failed && forall w :: !Has(s, w, id)
  }

  lemma ServiceKeepsFailures(cfg: Config, s: World, step: Step, p: Pair, from: int, reserved: int)
    requires Enabled(cfg, s, step) && !step.Outreach? && OnlyFailures(s, p, from, reserved)
    ensures OnlyFailures(After(cfg, s, step), p, from, reserved)
  {
    var s' := After(cfg, s, step);
    forall id | id in s'.messages && id >= from && id != reserved && OfPair(s'.messages[id], p)
      ensures s'.messages[id].status == Failed && forall w :: !Has(s', w, id)
    {
      hide After;
      ServiceKeepsRows(cfg, s, step);
      assert OfPair(s.messages[id], p);
      FailedStaysAlone(cfg, s, step, id);
    }
  }

  /** A failed row that nobody is sending stays as it is, and nobody starts to send it. */
  lemma FailedStaysAlone(cfg: Config, s: World, step: Step, id: int)
    requires Enabled(cfg, s, step) && !step.Outreach? && id in After(cfg, s, step).messages
    requires id in s.messages && s.messages[id].status == Failed && forall w :: !Has(s, w, id)
    ensures After(cfg, s, step).messages[id].status == Failed
    ensures forall w :: !Has(After(cfg, s, step), w, id)
  {
    var s' := After(cfg, s, step);
    assert step.End? ==> !Has(s, step.w, id);
    forall w
      ensures !Has(s', w, id)
    {
      assert !Has(s, w, id);
    }
  }

  lemma ClaimKeepsFailures(cfg: Config, e: Engine, q: Pair, ignoreDelay: bool, p: Pair, from: int, reserved: int)
    requires Sound(e) && p != q && OnlyFailures(e.world, p, from, reserved)
    ensures OnlyFailures(Next(cfg, e, ClaimTouch(q, ignoreDelay)).world, p, from, reserved)
  {
    hide FindNext, SameHistory, KnownBatches;
    var _ := ClaimShape(DbOf(e), q, e.world.clock, ignoreDelay);
    SameBatches(e.world, Next(cfg, e, ClaimTouch(q, ignoreDelay)).world);
  }

  lemma MoveKeepsFailures(cfg: Config, e: Engine, move: Move, p: Pair, from: int, reserved: int)
    requires Sound(e) && Possible(cfg, e, move) && Leaves(move, p)
    requires OnlyFailures(e.world, p, from, reserved)
    ensures OnlyFailures(Next(cfg, e, move).world, p, from, reserved)
  {
    match move
    case Service(step) => ServiceKeepsFailures(cfg, e.world, step, p, from, reserved);
    case ClaimTouch(q, ignoreDelay) => ClaimKeepsFailures(cfg, e, q, ignoreDelay, p, from, reserved);
    case _ => SameBatches(e.world, Next(cfg, e, move).world);
  }

  lemma {:induction false} FailuresOverRun(
      cfg: Config, engines: seq<Engine>, moves: seq<Move>, j: nat, k: nat, p: Pair, from: int, reserved: int)
    requires EngineRun(cfg, engines, moves) && j <= k < |engines|
    requires forall i :: j <= i < k ==> Leaves(moves[i], p)
    requires OnlyFailures(engines[j].world, p, from, reserved)
    ensures OnlyFailures(engines[k].world, p, from, reserved)
    decreases k
  {
    hide Sound, Possible, Next, OnlyFailures;
    if k > j {
      FailuresOverRun(cfg, engines, moves, j, k - 1, p, from, reserved);
      RunIsSound(cfg, engines, moves, k - 1);
      assert Moves(cfg, engines[k - 1], moves[k - 1], engines[k]);
      MoveKeepsFailures(cfg, engines[k - 1], moves[k - 1], p, from, reserved);
    }
  }

  /** In every run known rows stay the touches they are. */
  lemma {:induction false} TouchesOverRun(cfg: Config, engines: seq<Engine>, moves: seq<Move>, j: nat, k: nat)
    requires EngineRun(cfg, engines, moves) && j <= k < |engines|
    ensures engines[j].world.nextId <= engines[k].world.nextId
    ensures KeepsTouches(engines[j].world.messages, engines[j].world.nextId, engines[k].world.messages)
    decreases k
  {
    hide Sound, Possible, Next;
    if k > j {
      TouchesOverRun(cfg, engines, moves, j, k - 1);
      RunIsSound(cfg, engines, moves, k - 1);
      assert Moves(cfg, engines[k - 1], moves[k - 1], engines[k]);
      MoveKeepsSound(cfg, engines[k - 1], moves[k - 1]);
    }
  }

  /** Just after a claim, everything newer of the pair than what it found is the reservation and failed skips. */
  lemma ClaimLeavesFailures(cfg: Config, e: Engine, p: Pair, ignoreDelay: bool)
    requires Sound(e) && Claim(DbOf(e), p, e.world.clock, ignoreDelay).1.Claimed?
    ensures OnlyFailures(Next(cfg, e, ClaimTouch(p, ignoreDelay)).world, p, e.world.nextId,
                         Claim(DbOf(e), p, e.world.clock, ignoreDelay).1.messageId)
  {
    hide FindNext, SameHistory, Claim, OfPair;
    var _ := ClaimShape(DbOf(e), p, e.world.clock, ignoreDelay);
    var e' := Next(cfg, e, ClaimTouch(p, ignoreDelay));
    forall w, id | Has(e'.world, w, id)
      ensures id < e.world.nextId
    {
      assert Has(e.world, w, id);
    }
  }

  /** Nothing newer than the reservation is counted until the pair gets another touch. */
  lemma NothingNewer(db: Db, p: Pair, now: int, ignoreDelay: bool, later: World)
    requires WellFormed(db) && Claim(db, p, now, ignoreDelay).1.Claimed?
    requires var claimed, r := Claim(db, p, now, ignoreDelay).0, Claim(db, p, now, ignoreDelay).1;
             && KeepsTouches(claimed.messages, claimed.nextId, later.messages)
             && OnlyFailures(later, p, db.nextId, r.messageId)
    ensures NoNewerTouch(db, later.messages, p, Claim(db, p, now, ignoreDelay).1.messageId)
    ensures var claimed, id := Claim(db, p, now, ignoreDelay).0.messages, Claim(db, p, now, ignoreDelay).1.messageId;
            id in claimed && (id in later.messages ==> SameTouch(claimed[id], later.messages[id]))
  {
    hide FindNext, SameHistory, Claim;
    var _ := ClaimShape(db, p, now, ignoreDelay);
  }

  /** Sequence position over whole runs: once a linked reservation of step s has been sent, and until the
      pair gets another touch, the lead's next step is s + 1, whatever late workers, overlapping decisions, other
      pairs, touch counts and definitions did in between. */
  lemma SentReservationAdvances(cfg: Config, engines: seq<Engine>, moves: seq<Move>, j: nat, k: nat)
    requires EngineRun(cfg, engines, moves) && j < k < |engines| && moves[j].ClaimTouch?
    requires forall i :: j < i < k ==> Leaves(moves[i], moves[j].p)
    requires var r := Claim(DbOf(engines[j]), moves[j].p, engines[j].world.clock, moves[j].ignoreDelay).1;
             && r.Claimed? && r.stepId.Some?
             && r.messageId in engines[k].world.messages && engines[k].world.messages[r.messageId].status == Sent
             && r.stepId.value in engines[k].steps && engines[k].steps[r.stepId.value].number == r.number
    ensures NextNumber(DbOf(engines[k]), moves[j].p)
            == Claim(DbOf(engines[j]), moves[j].p, engines[j].world.clock, moves[j].ignoreDelay).1.number + 1
  {
    hide NextNumber, Possible, OnlyFailures, KeepsTouches, KnownBatches;
    var db, p, now, ignoreDelay := DbOf(engines[j]), moves[j].p, engines[j].world.clock, moves[j].ignoreDelay;
    RunIsSound(cfg, engines, moves, j);
    assert Moves(cfg, engines[j], moves[j], engines[j + 1]);
    ClaimLeavesFailures(cfg, engines[j], p, ignoreDelay);
    FailuresOverRun(cfg, engines, moves, j + 1, k, p, db.nextId, Claim(db, p, now, ignoreDelay).1.messageId);
    TouchesOverRun(cfg, engines, moves, j + 1, k);
    NothingNewer(db, p, now, ignoreDelay, engines[k].world);
    ReservedRow(db, p, now, ignoreDelay);
    ClaimThenSentAdvances(db, p, now, ignoreDelay, DbOf(engines[k]));
  }

  /** Runs may start from empty tables. */
  lemma EmptyEngineIsSound(clock: int, nextId: int, p: Pair)
    ensures Sound(Engine(World(map[], nextId, map[], clock), map[], map[], map[], map[]))
    ensures OnePending(map[], p)
  {
  }
}

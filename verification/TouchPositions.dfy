/** How a reservation that is sent, or fails, moves a lead through its sequence. */
module TouchPositions {
  import opened Common
  import opened Messages
  import opened Steps
  import opened Outreach
  import opened StepSearch

  /** No row was created after `now`. */
  ghost predicate CreatedBy(t: Table, now: int) { forall id :: id in t ==> t[id].createdAt <= now }

  /** The database when the reservation loop has found its step and is about to insert the reservation. */
  function BeforeReservation(db: Db, p: Pair, now: int, ignoreDelay: bool, fuel: nat): Db
    decreases fuel
  {
    if fuel == 0 then db
    else
      match FindNext(db, p, now, ignoreDelay)
      case Skip(number, channel, stepId) =>
        BeforeReservation(RecordSkip(db, p, Skip(number, channel, stepId), now), p, now, ignoreDelay, fuel - 1)
      case _ => db
  }

  /** A pure addition of rows created at `now` that are not counted as touches. */
  ghost predicate OnlySkips(db: Db, before: Db, p: Pair, now: int) {
    && db.nextId <= before.nextId
    && before.leads == db.leads && before.defs == db.defs && before.steps == db.steps
    && (forall id :: id in db.messages ==> id in before.messages && before.messages[id] == db.messages[id])
    && (forall id :: id in before.messages && id !in db.messages ==>
          && db.nextId <= id < before.nextId
          && OfPair(before.messages[id], p) && before.messages[id].status == Failed && before.messages[id].approved == 0
          && before.messages[id].claimedAt.None? && before.messages[id].scheduledAt.None?
          && before.messages[id].attempts == 0 && before.messages[id].createdAt == now)
  }

  lemma SkipThenOnlySkips(db: Db, before: Db, p: Pair, step: Candidate, now: int)
    requires WellFormed(db) && step.Skip?
    requires OnlySkips(RecordSkip(db, p, step, now), before, p, now) && SameHistory(RecordSkip(db, p, step, now), before, p)
    ensures OnlySkips(db, before, p, now) && SameHistory(db, before, p)
  {
    hide Touches;
    RecordSkipFacts(db, p, step, now);
  }

  /** The claim is the skips and then at most one insert; what is inserted is what the search then finds. */
  ghost predicate SkipsThenInsert(db: Db, p: Pair, now: int, ignoreDelay: bool, before: Db, db': Db, r: ClaimResult) {
    && WellFormed(before) && OnlySkips(db, before, p, now) && SameHistory(db, before, p)
    && (r.NotClaimed? ==> db' == before)
    && (r.Claimed? ==>
          && FindNext(before, p, now, ignoreDelay) == Take(r.number, r.channel, r.stepId)
          && db' == Insert(before, NewRow(p, Generating, r.stepId, r.channel, now, None))
          && r.messageId == before.nextId)
  }

  lemma {:induction false} ClaimIsSkipsThenInsert(db: Db, p: Pair, now: int, ignoreDelay: bool, fuel: nat, skipped: seq<int>)
    requires WellFormed(db)
    ensures var result := ClaimFrom(db, p, now, ignoreDelay, fuel, skipped);
            SkipsThenInsert(db, p, now, ignoreDelay, BeforeReservation(db, p, now, ignoreDelay, fuel), result.0, result.1)
    decreases fuel
  {
    hide Counted, FindNext, RecordSkip, WellFormed;
    var step := FindNext(db, p, now, ignoreDelay);
    if fuel > 0 && step.Skip? {
      hide OnlySkips, SameHistory;
      var db1 := RecordSkip(db, p, step, now);
      RecordSkipFacts(db, p, step, now);
      var left: nat, later := fuel - 1, skipped + [step.number];
      ClaimIsSkipsThenInsert(db1, p, now, ignoreDelay, left, later);
      SkipThenOnlySkips(db, BeforeReservation(db1, p, now, ignoreDelay, left), p, step, now);
    }
  }

  /** The claim with the index: it either is that, or leaves the database alone. */
  lemma ClaimShape(db: Db, p: Pair, now: int, ignoreDelay: bool) returns (before: Db)
    requires WellFormed(db)
    ensures SkipsThenInsert(db, p, now, ignoreDelay, before, Claim(db, p, now, ignoreDelay).0, Claim(db, p, now, ignoreDelay).1)
    ensures Claim(db, p, now, ignoreDelay).1.Claimed? ==>
              && before == BeforeReservation(db, p, now, ignoreDelay, MAX_STEPS_PER_CLAIM)
              && !IndexRejects(db.messages, p, Claim(db, p, now, ignoreDelay).1.stepId)
  {
    hide SameHistory, OnlySkips, WellFormed, FindNext, ClaimFrom, IndexRejects;
    var limit: nat, none: seq<int> := MAX_STEPS_PER_CLAIM, [];
    ClaimIsSkipsThenInsert(db, p, now, ignoreDelay, limit, none);
    var result := ClaimFrom(db, p, now, ignoreDelay, limit, none);
    before := BeforeReservation(db, p, now, ignoreDelay, limit);
    if result.1.Claimed? && IndexRejects(db.messages, p, result.1.stepId) {
      before := db;
      NothingWasSkipped(db, p, now);
    }
  }

  lemma NothingWasSkipped(db: Db, p: Pair, now: int)
    ensures OnlySkips(db, db, p, now) && SameHistory(db, db, p)
  {
  }

  // ---- What a reservation presupposes ------------------------------------------------------------

  /** Skips change nothing that holds a lead back. */
  lemma {:induction false} SkipsKeepGate(db: Db, p: Pair, now: int, ignoreDelay: bool, fuel: nat)
    requires WellFormed(db)
    ensures var before := BeforeReservation(db, p, now, ignoreDelay, fuel);
            Gate(before, p) == Gate(db, p) && LastTime(before, p) == LastTime(db, p)
    decreases fuel
  {
    hide Gate, FindNext, RecordSkip, LastTime, WellFormed;
    var step := FindNext(db, p, now, ignoreDelay);
    if fuel > 0 && step.Skip? {
      SkipKeepsGate(db, p, step, now);
      RecordSkipFacts(db, p, step, now);
      var left: nat := fuel - 1;
      SkipsKeepGate(RecordSkip(db, p, step, now), p, now, ignoreDelay, left);
    }
  }

  /** The lead is there, has not opted out, has neither answered nor booked a meeting in this campaign, and
      its last counted touch, if any, has been sent. */
  ghost predicate MayBeContacted(db: Db, p: Pair) {
    && p.lead in db.leads && !db.leads[p.lead].optOut
    && ((p.campaign, p.lead) in db.members ==>
          !db.members[(p.campaign, p.lead)].meetingBooked && !db.members[(p.campaign, p.lead)].responded)
    && forall id :: id in Touches(db.messages, p) && IsLatest(db.messages, Touches(db.messages, p), id) ==>
         db.messages[id].status == Sent
  }

  /** The step's own delay, in days since the last counted touch, is over. */
  ghost predicate WaitIsOver(db: Db, p: Pair, number: int, now: int) {
    (p.campaign, number) in db.defs && LastTime(db, p).Some? && db.defs[(p.campaign, number)].delayDays > 0 ==>
      now >= LastTime(db, p).value + db.defs[(p.campaign, number)].delayDays * 86_400
  }

  lemma GateIsMayBeContacted(db: Db, p: Pair)
    ensures Gate(db, p).None? <==> MayBeContacted(db, p)
  {
    var touches := Touches(db.messages, p);
    forall id | id in touches && IsLatest(db.messages, touches, id)
      ensures id == Latest(db.messages, touches)
    {
      LatestIsUnique(db.messages, touches, id, Latest(db.messages, touches));
    }
  }

  lemma DelayIsWholeDays(db: Db, p: Pair, number: int, now: int)
    ensures DelayPassed(db, p, number, now, false) <==> WaitIsOver(db, p, number, now)
  {
    hide LastTime;
  }

  /** A reservation is made only for a lead that may be contacted, of a defined step whose channel the lead
      can be reached on, and not before its delay is over unless delays are ignored. All of this is read in
      the database the claim started from. */
  lemma ClaimedMeansEligible(db: Db, p: Pair, now: int, ignoreDelay: bool)
    requires WellFormed(db) && Claim(db, p, now, ignoreDelay).1.Claimed?
    ensures var number := Claim(db, p, now, ignoreDelay).1.number;
            && MayBeContacted(db, p) && Defined(db, p, number) && Usable(db, p, number)
            && (ignoreDelay || WaitIsOver(db, p, number, now))
  {
    hide LastTime, Usable, MayBeContacted, WellFormed, OnlySkips;
    var before := ClaimShape(db, p, now, ignoreDelay);
    SkipsKeepGate(db, p, now, ignoreDelay, MAX_STEPS_PER_CLAIM);
    GateIsMayBeContacted(db, p);
    var number := Claim(db, p, now, ignoreDelay).1.number;
    SameStepsSameUse(db, before, p, number);
    DelayIsWholeDays(before, p, number, now);
  }

  lemma SameStepsSameUse(db: Db, before: Db, p: Pair, number: int)
    requires before.leads == db.leads && before.defs == db.defs && p.lead in db.leads
    ensures Usable(before, p, number) == Usable(db, p, number)
  {
  }

  /** A sent last touch with a linked step says where the lead is, whatever the touch count says. */
  lemma LinkedSentTouchDecides(db: Db, p: Pair, id: int)
    requires id in Touches(db.messages, p) && IsLatest(db.messages, Touches(db.messages, p), id)
    requires LinkedNumber(db, db.messages[id]) != 0
    ensures NextNumber(db, p) == LinkedNumber(db, db.messages[id]) + 1
  {
    var ids := Touches(db.messages, p);
    LatestIsUnique(db.messages, ids, id, Latest(db.messages, ids));
  }

  lemma NextNumberIsPositive(db: Db, p: Pair)
    requires WellFormed(db)
    ensures NextNumber(db, p) >= 1
  {
    if Touches(db.messages, p) != {} {
      var last := db.messages[Latest(db.messages, Touches(db.messages, p))];
      FirstStepIsPositive(db, p, last);
      if last.stepId.Some? {
        var linked := last.stepId.value;
        assert linked in db.steps ==> db.steps[linked].number >= 1;
      }
      assert EmailsSent(db, p) >= 0;
      assert NextNumber(db, p) == CurrentNumber(db, p, last) + 1;
    }
  }

  /** A reservation is linked to the step row with its own number. */
  lemma TakeIsLinked(db: Db, p: Pair, now: int, ignoreDelay: bool)
    requires WellFormed(db) && FindNext(db, p, now, ignoreDelay).Take? && FindNext(db, p, now, ignoreDelay).stepId.Some?
    ensures var step := FindNext(db, p, now, ignoreDelay);
            step.stepId.value in db.steps && db.steps[step.stepId.value].number == step.number >= 1
  {
    NextNumberIsPositive(db, p);
  }

  /** The reservation a claim made: a new row, newer than every other, linked to the step it is for. */
  lemma ReservedRow(db: Db, p: Pair, now: int, ignoreDelay: bool)
    requires WellFormed(db) && Claim(db, p, now, ignoreDelay).1.Claimed?
    ensures var claimed, r := Claim(db, p, now, ignoreDelay).0, Claim(db, p, now, ignoreDelay).1;
            && db.nextId <= r.messageId
            && r.messageId in claimed.messages
            && claimed.messages[r.messageId] == NewRow(p, Generating, r.stepId, r.channel, now, None)
            && (r.stepId.Some? ==> r.stepId.value in db.steps && db.steps[r.stepId.value].number == r.number >= 1)
  {
    var before := ClaimShape(db, p, now, ignoreDelay);
    if Claim(db, p, now, ignoreDelay).1.stepId.Some? {
      TakeIsLinked(before, p, now, ignoreDelay);
    }
  }

  /** Among the counted touches a row that is newer than every other is the latest. */
  lemma NewestIsLatest(t: Table, p: Pair, id: int)
    requires id in t && Counted(t[id], p)
    requires forall x :: x in t && x != id && Counted(t[x], p) ==> t[x].createdAt <= t[id].createdAt && x < id
    ensures id in Touches(t, p) && IsLatest(t, Touches(t, p), id)
  {
  }

  /** Nothing newer than the reservation was added to the pair since the claim. */
  ghost predicate NoNewerTouch(db: Db, later: Table, p: Pair, reserved: int) {
    forall id :: id in later && id != reserved && Counted(later[id], p) ==>
      id in db.messages && later[id].createdAt == db.messages[id].createdAt
  }

  /** Sequence position: after a claim of step s with a linked step row, once that message is SENT and no
      newer touch was added, the next step is exactly s + 1, whatever happened to the campaign's touch
      counts, the other rows and the other steps in the meantime. */
  lemma ClaimThenSentAdvances(db: Db, p: Pair, now: int, ignoreDelay: bool, later: Db)
    requires WellFormed(db) && CreatedBy(db.messages, now)
    requires Claim(db, p, now, ignoreDelay).1.Claimed? && Claim(db, p, now, ignoreDelay).1.stepId.Some?
    requires var claimed, r := Claim(db, p, now, ignoreDelay).0, Claim(db, p, now, ignoreDelay).1;
             && r.messageId in later.messages && r.messageId in claimed.messages
             && SameTouch(claimed.messages[r.messageId], later.messages[r.messageId])
             && later.messages[r.messageId].status == Sent
             && r.stepId.value in later.steps && r.stepId.value in db.steps
             && later.steps[r.stepId.value].number == db.steps[r.stepId.value].number
             && NoNewerTouch(db, later.messages, p, r.messageId)
    ensures NextNumber(later, p) == Claim(db, p, now, ignoreDelay).1.number + 1
  {
    ReservedRow(db, p, now, ignoreDelay);
    var r := Claim(db, p, now, ignoreDelay).1;
    NewestIsLatest(later.messages, p, r.messageId);
    LinkedSentTouchDecides(later, p, r.messageId);
  }

  /** A failed reservation leaves no trace in the lead's position: everything the search reads is as it was
      just before the insert. */
  lemma ClaimThenFailRestores(db: Db, p: Pair, now: int, ignoreDelay: bool, error: string, at: int, ignore: bool)
    requires WellFormed(db) && Claim(db, p, now, ignoreDelay).1.Claimed?
    ensures var before := BeforeReservation(db, p, now, ignoreDelay, MAX_STEPS_PER_CLAIM);
            var claimed := Claim(db, p, now, ignoreDelay).0;
            var failed := claimed.(messages := Fail(claimed.messages, Claim(db, p, now, ignoreDelay).1.messageId, error));
            && NextNumber(failed, p) == NextNumber(before, p)
            && FindNext(failed, p, at, ignore) == FindNext(before, p, at, ignore)
  {
    var before := ClaimShape(db, p, now, ignoreDelay);
    var claimed, r := Claim(db, p, now, ignoreDelay).0, Claim(db, p, now, ignoreDelay).1;
    var failed := claimed.(messages := Fail(claimed.messages, r.messageId, error));
    assert SameHistory(before, failed, p) by {
      assert forall id :: id in Touches(failed.messages, p) <==> id in Touches(before.messages, p);
    }
    SameHistorySameSearch(before, failed, p, at, ignore);
  }

  lemma SameHistorySameSearch(db: Db, db': Db, p: Pair, now: int, ignoreDelay: bool)
    requires SameHistory(db, db', p) && db'.members == db.members
    ensures NextNumber(db', p) == NextNumber(db, p)
    ensures FindNext(db', p, now, ignoreDelay) == FindNext(db, p, now, ignoreDelay)
  {
    SameHistorySameCount(db, db', p);
    if Touches(db.messages, p) != {} {
      SameHistorySameLatest(db, db', p);
    }
  }
}

/** What the reservation loop of the sequence engine amounts to: the first step that can be sent,
    when skipping advances the lead, and a loop on the spot when it does not. */
module StepSearch {
  import opened Common
  import opened Messages
  import opened Steps
  import opened Outreach

  /** Ids are below the next one, touch counts are not negative, and steps are numbered from 1. */
  ghost predicate WellFormed(db: Db) {
    && (forall id :: id in db.messages ==> id < db.nextId)
    && (forall key :: key in db.members ==> db.members[key].emailsSent >= 0)
    && (forall key :: key in db.defs ==> key.1 >= 1)
    && (forall id :: id in db.steps ==> db.steps[id].number >= 1)
  }

  lemma LatestIsUnique(t: Table, ids: set<int>, a: int, b: int)
    requires forall x :: x in ids ==> x in t
    requires IsLatest(t, ids, a) && IsLatest(t, ids, b)
    ensures a == b
  {
  }

  /** The history of a pair is the same in both databases. */
  ghost predicate SameHistory(db: Db, db': Db, p: Pair) {
    && Touches(db'.messages, p) == Touches(db.messages, p)
    && (forall id :: id in Touches(db.messages, p) ==> db'.messages[id] == db.messages[id])
    && db'.leads == db.leads && db'.defs == db.defs && db'.steps == db.steps
  }

  lemma SameHistorySameLatest(db: Db, db': Db, p: Pair)
    requires SameHistory(db, db', p) && Touches(db.messages, p) != {}
    ensures Latest(db'.messages, Touches(db'.messages, p)) == Latest(db.messages, Touches(db.messages, p))
  {
    var ids := Touches(db.messages, p);
    LatestIsUnique(db.messages, ids, Latest(db.messages, ids), Latest(db'.messages, ids));
  }

  lemma SameHistorySameCount(db: Db, db': Db, p: Pair)
    requires SameHistory(db, db', p)
    ensures SentTouches(db'.messages, p) == SentTouches(db.messages, p)
  {
    forall id
      ensures id in SentTouches(db'.messages, p) <==> id in SentTouches(db.messages, p)
    {
      assert id in SentTouches(db.messages, p) ==> id in Touches(db.messages, p);
      assert id in SentTouches(db'.messages, p) ==> id in Touches(db'.messages, p);
    }
  }

  lemma SameHistorySameIndex(db: Db, db': Db, p: Pair, stepId: Option<int>)
    requires SameHistory(db, db', p)
    ensures IndexRejects(db'.messages, p, stepId) == IndexRejects(db.messages, p, stepId)
  {
    forall id
      ensures id in db'.messages && Indexed(db'.messages[id], p) <==> id in db.messages && Indexed(db.messages[id], p)
    {
      assert id in db'.messages && Indexed(db'.messages[id], p) ==> id in Touches(db'.messages, p);
      assert id in db.messages && Indexed(db.messages[id], p) ==> id in Touches(db.messages, p);
    }
  }

  /** Rows that do not count as touches of the pair leave its history as it was. */
  lemma InsertKeepsHistory(db: Db, m: Message, p: Pair)
    requires WellFormed(db) && !Counted(m, p)
    ensures SameHistory(db, Insert(db, m), p)
  {
    var db' := Insert(db, m);
    assert forall id :: id in Touches(db'.messages, p) <==> id in Touches(db.messages, p);
  }

  /** The last touch is linked to a step row with a number. */
  predicate LastIsLinked(db: Db, p: Pair) {
    var touches := Touches(db.messages, p);
    touches != {} && LinkedNumber(db, db.messages[Latest(db.messages, touches)]) != 0
  }

  /** Skipping moves the lead on exactly when it has a campaign_leads row to count in and its last touch,
      if any, does not say by itself which step the lead is at. */
  predicate SkipsAdvance(db: Db, p: Pair) {
    (p.campaign, p.lead) in db.members && !LastIsLinked(db, p)
  }

  lemma RecordSkipFacts(db: Db, p: Pair, step: Candidate, now: int)
    requires WellFormed(db) && step.Skip?
    ensures var db' := RecordSkip(db, p, step, now);
            && WellFormed(db') && SameHistory(db, db', p)
            && db'.nextId == db.nextId + 1
            && db'.messages == db.messages[db.nextId := NewRow(p, Failed, step.stepId, step.channel, now, Some(Skipped(step.channel)))]
            && db'.members.Keys == db.members.Keys
            && EmailsSent(db', p) == if (p.campaign, p.lead) in db.members then Max(EmailsSent(db, p), step.number) else 0
  {
    InsertKeepsHistory(db, NewRow(p, Failed, step.stepId, step.channel, now, Some(Skipped(step.channel))), p);
  }

  lemma SkipKeepsGate(db: Db, p: Pair, step: Candidate, now: int)
    requires WellFormed(db) && step.Skip?
    ensures var db' := RecordSkip(db, p, step, now);
            Gate(db', p) == Gate(db, p) && LastTime(db', p) == LastTime(db, p) && LastIsLinked(db', p) == LastIsLinked(db, p)
  {
    RecordSkipFacts(db, p, step, now);
    if Touches(db.messages, p) != {} {
      SameHistorySameLatest(db, RecordSkip(db, p, step, now), p);
    }
  }

  /** Where a skip leaves the lead. */
  lemma SkipMoves(db: Db, p: Pair, step: Candidate, now: int)
    requires WellFormed(db) && step.Skip? && step.number == NextNumber(db, p)
    ensures var db' := RecordSkip(db, p, step, now);
            && SkipsAdvance(db', p) == SkipsAdvance(db, p)
            && NextNumber(db', p) == NextNumber(db, p) + if SkipsAdvance(db, p) then 1 else 0
  {
    var db' := RecordSkip(db, p, step, now);
    RecordSkipFacts(db, p, step, now);
    SkipKeepsGate(db, p, step, now);
    SameHistorySameCount(db, db', p);
    if Touches(db.messages, p) != {} {
      SameHistorySameLatest(db, db', p);
      FirstStepIsPositive(db, p, db.messages[Latest(db.messages, Touches(db.messages, p))]);
    }
  }

  /** A lead with touches that no linked step, count or channel places is past step 1. */
  lemma FirstStepIsPositive(db: Db, p: Pair, last: Message)
    requires WellFormed(db)
    ensures InferredNumber(db, p, last.channel) >= 0
  {
  }

  // ---- The specification -----------------------------------------------------------------------

  /** A defined step the lead has no address for. */
  predicate Unreachable(db: Db, p: Pair, number: int) {
    p.lead in db.leads && Defined(db, p, number) && !Usable(db, p, number)
  }

  /** How many steps in a row from `start` on are unreachable, at most `fuel`. */
  function UnreachableRun(db: Db, p: Pair, start: int, fuel: nat): (n: nat)
    ensures n <= fuel
    ensures forall k :: start <= k < start + n ==> Unreachable(db, p, k)
    ensures n < fuel ==> !Unreachable(db, p, start + n)
    decreases fuel
  {
    if fuel == 0 || !Unreachable(db, p, start) then 0 else 1 + UnreachableRun(db, p, start + 1, fuel - 1)
  }

  lemma {:induction false} SameStepsSameRun(db: Db, db': Db, p: Pair, start: int, fuel: nat)
    requires db'.leads == db.leads && db'.defs == db.defs
    ensures UnreachableRun(db', p, start, fuel) == UnreachableRun(db, p, start, fuel)
    decreases fuel
  {
    if fuel > 0 {
      SameStepsSameRun(db, db', p, start + 1, fuel - 1);
    }
  }

  function Numbers(start: int, n: nat): seq<int> { seq(n, i requires 0 <= i => start + i) }

  /** The row a skip leaves for a step. */
  function SkipRow(db: Db, p: Pair, number: int, now: int): Message {
    NewRow(p, Failed, StepIdOf(db, p, number), ChannelOf(db, p, number), now, Some(Skipped(ChannelOf(db, p, number))))
  }

  /** The new table: the old one, a skip row for each of the `n` steps from `start` on, and then `rest`. */
  ghost predicate SkippedThen(db: Db, p: Pair, now: int, start: int, n: nat, rest: seq<Message>, db': Db) {
    && db'.nextId == db.nextId + n + |rest|
    && (forall id :: id in db'.messages <==> id in db.messages || db.nextId <= id < db'.nextId)
    && (forall id :: id in db.messages ==> db'.messages[id] == db.messages[id])
    && (forall id :: db.nextId <= id < db'.nextId ==>
          db'.messages[id] == if id < db.nextId + n then SkipRow(db, p, start + (id - db.nextId), now)
                              else rest[id - db.nextId - n])
  }

  /** What the loop does with `fuel` visits from `start` on, when nothing holds the lead back and skips
      advance it. */
  ghost predicate SearchesInOrder(
      db: Db, p: Pair, start: int, now: int, ignoreDelay: bool, fuel: nat, skipped: seq<int>, db': Db, r: ClaimResult)
  {
    var n := UnreachableRun(db, p, start, fuel);
    && r.skipped == skipped + Numbers(start, n)
    && SkippedThen(db, p, now, start, n, Reservation(p, now, r), db')
    && StopsAt(db, p, start + n, now, ignoreDelay, n == fuel, db.nextId + n, r)
  }

  /** The row a successful claim inserts. */
  function Reservation(p: Pair, now: int, r: ClaimResult): seq<Message> {
    if r.Claimed? then [NewRow(p, Generating, r.stepId, r.channel, now, None)] else []
  }

  /** How the search ends at a step: out of visits, past the end, too early, or by reserving it. */
  predicate StopsAt(db: Db, p: Pair, number: int, now: int, ignoreDelay: bool, exhausted: bool, id: int, r: ClaimResult) {
    if exhausted then r.NotClaimed? && r.code == NothingAfterSkipping
    else if !Defined(db, p, number) then r.NotClaimed? && r.code == SequenceExhausted
    else if !DelayPassed(db, p, number, now, ignoreDelay) then r.NotClaimed? && r.code == DelayNotPassed
    else r == Claimed(id, number, ChannelOf(db, p, number), StepIdOf(db, p, number), r.skipped)
  }

  /** `db1` is `db` after the skip of step `start`. */
  ghost predicate IsAfterSkip(db: Db, db1: Db, p: Pair, start: int, now: int) {
    && db.nextId !in db.messages
    && db1.leads == db.leads && db1.defs == db.defs && db1.steps == db.steps && LastTime(db1, p) == LastTime(db, p)
    && db1.nextId == db.nextId + 1
    && db1.messages == db.messages[db.nextId := SkipRow(db, p, start, now)]
  }

  lemma SkippedThenAfterSkip(db: Db, db1: Db, p: Pair, now: int, start: int, n: nat, rest: seq<Message>, db': Db)
    requires IsAfterSkip(db, db1, p, start, now)
    requires SkippedThen(db1, p, now, start + 1, n, rest, db')
    ensures SkippedThen(db, p, now, start, n + 1, rest, db')
  {
    hide LastTime, StepIdOf, ChannelOf, NewRow;
    assert forall k :: SkipRow(db1, p, k, now) == SkipRow(db, p, k, now) by {
      SameStepsSameRow(db, db1, p, now);
    }
    hide SkipRow;
  }

  lemma SameStepsSameRow(db: Db, db1: Db, p: Pair, now: int)
    requires db1.defs == db.defs && db1.steps == db.steps
    ensures forall k :: SkipRow(db1, p, k, now) == SkipRow(db, p, k, now)
  {
  }

  lemma SameStepsSameReach(db: Db, db1: Db, p: Pair, number: int)
    requires db1.leads == db.leads && db1.defs == db.defs
    ensures Unreachable(db1, p, number) == Unreachable(db, p, number)
  {
  }

  lemma StopsAtAfterSkip(
      db: Db, db1: Db, p: Pair, start: int, number: int, now: int, ignoreDelay: bool, exhausted: bool, id: int, r: ClaimResult)
    requires IsAfterSkip(db, db1, p, start, now)
    ensures StopsAt(db1, p, number, now, ignoreDelay, exhausted, id, r) == StopsAt(db, p, number, now, ignoreDelay, exhausted, id, r)
  {
  }

  lemma NumbersFrom(start: int, n: nat, skipped: seq<int>)
    ensures skipped + [start] + Numbers(start + 1, n) == skipped + Numbers(start, n + 1)
  {
  }

  lemma OneMoreSkip(
      db: Db, db1: Db, p: Pair, start: int, now: int, ignoreDelay: bool, fuel: nat, skipped: seq<int>, db': Db, r: ClaimResult)
    requires fuel > 0 && IsAfterSkip(db, db1, p, start, now) && Unreachable(db, p, start)
    requires SearchesInOrder(db1, p, start + 1, now, ignoreDelay, fuel - 1, skipped + [start], db', r)
    ensures SearchesInOrder(db, p, start, now, ignoreDelay, fuel, skipped, db', r)
  {
    hide LastTime, StepIdOf, ChannelOf, NewRow, SkipRow, SkippedThen, StopsAt, Numbers, Defined, Usable;
    SameStepsSameRun(db, db1, p, start + 1, fuel - 1);
    var n := UnreachableRun(db, p, start + 1, fuel - 1);
    NumbersFrom(start, n, skipped);
    SkippedThenAfterSkip(db, db1, p, now, start, n, Reservation(p, now, r), db');
    StopsAtAfterSkip(db, db1, p, start, start + 1 + n, now, ignoreDelay, n == fuel - 1, db1.nextId + n, r);
  }

  /** Whether a lead is held back, whether skips advance it, and where it is. */
  datatype Prospect = Prospect(gate: Option<Code>, advances: bool, next: int)

  function Outlook(db: Db, p: Pair): Prospect { Prospect(Gate(db, p), SkipsAdvance(db, p), NextNumber(db, p)) }

  lemma VisitSkips(db: Db, p: Pair, start: int, advances: bool, now: int, ignoreDelay: bool, fuel: nat, skipped: seq<int>)
    returns (db1: Db)
    requires WellFormed(db) && Outlook(db, p) == Prospect(None, advances, start)
    requires fuel > 0 && Unreachable(db, p, start)
    ensures IsAfterSkip(db, db1, p, start, now)
    ensures WellFormed(db1) && Outlook(db1, p) == Prospect(None, advances, if advances then start + 1 else start)
    ensures ClaimFrom(db, p, now, ignoreDelay, fuel, skipped)
            == ClaimFrom(db1, p, now, ignoreDelay, fuel - 1, skipped + [start])
  {
    var step := FindNext(db, p, now, ignoreDelay);
    db1 := RecordSkip(db, p, step, now);
    RecordSkipFacts(db, p, step, now);
    SkipKeepsGate(db, p, step, now);
    SkipMoves(db, p, step, now);
  }

  lemma VisitStops(db: Db, p: Pair, start: int, advances: bool, now: int, ignoreDelay: bool, fuel: nat, skipped: seq<int>)
    requires WellFormed(db) && Outlook(db, p) == Prospect(None, advances, start)
    requires fuel == 0 || !Unreachable(db, p, start)
    ensures LoopInOrder(db, p, start, now, ignoreDelay, fuel, skipped)
  {
    hide SkipsAdvance, NextNumber, LastTime, StepIdOf, ChannelOf, Usable, Counted;
    assert skipped + Numbers(start, 0) == skipped;
  }

  ghost predicate LoopInOrder(db: Db, p: Pair, start: int, now: int, ignoreDelay: bool, fuel: nat, skipped: seq<int>) {
    var result := ClaimFrom(db, p, now, ignoreDelay, fuel, skipped);
    SearchesInOrder(db, p, start, now, ignoreDelay, fuel, skipped, result.0, result.1)
  }

  lemma LoopInOrderAfterSkip(
      db: Db, db1: Db, p: Pair, start: int, now: int, ignoreDelay: bool, fuel: nat, skipped: seq<int>,
      next: int, left: nat, later: seq<int>)
    requires fuel > 0 && IsAfterSkip(db, db1, p, start, now) && Unreachable(db, p, start)
    requires next == start + 1 && left == fuel - 1 && later == skipped + [start]
    requires ClaimFrom(db, p, now, ignoreDelay, fuel, skipped) == ClaimFrom(db1, p, now, ignoreDelay, left, later)
    requires LoopInOrder(db1, p, next, now, ignoreDelay, left, later)
    ensures LoopInOrder(db, p, start, now, ignoreDelay, fuel, skipped)
  {
    hide ClaimFrom, SearchesInOrder, IsAfterSkip, Unreachable;
    var result := ClaimFrom(db1, p, now, ignoreDelay, left, later);
    OneMoreSkip(db, db1, p, start, now, ignoreDelay, fuel, skipped, result.0, result.1);
  }

  /** The loop searches the steps in order. */
  lemma {:induction false} LoopSearchesInOrder(db: Db, p: Pair, start: int, now: int, ignoreDelay: bool, fuel: nat, skipped: seq<int>)
    requires WellFormed(db) && Outlook(db, p) == Prospect(None, true, start)
    ensures LoopInOrder(db, p, start, now, ignoreDelay, fuel, skipped)
    decreases fuel
  {
    hide *;
    if fuel > 0 && Unreachable(db, p, start) {
      var db1 := VisitSkips(db, p, start, true, now, ignoreDelay, fuel, skipped);
      var left: nat, later, next := fuel - 1, skipped + [start], start + 1;
      LoopSearchesInOrder(db1, p, next, now, ignoreDelay, left, later);
      LoopInOrderAfterSkip(db, db1, p, start, now, ignoreDelay, fuel, skipped, next, left, later);
    } else {
      VisitStops(db, p, start, true, now, ignoreDelay, fuel, skipped);
    }
  }

  // ---- First sendable step -----------------------------------------------------------------------

  /** The step a claim may reserve: within five of the lead's position, every step before it unreachable,
      and itself defined, reachable and due. */
  ghost predicate FirstSendable(db: Db, p: Pair, now: int, ignoreDelay: bool, number: int) {
    var start := NextNumber(db, p);
    && p.lead in db.leads
    && start <= number < start + MAX_STEPS_PER_CLAIM
    && (forall k :: start <= k < number ==> Unreachable(db, p, k))
    && Defined(db, p, number) && Usable(db, p, number) && DelayPassed(db, p, number, now, ignoreDelay)
  }

  /** Where a search from `start` stops, in terms of the steps alone. */
  lemma SearchFindsFirstSendable(db: Db, p: Pair, start: int, now: int, ignoreDelay: bool, db': Db, r: ClaimResult, number: int)
    requires p.lead in db.leads && start == NextNumber(db, p)
    requires SearchesInOrder(db, p, start, now, ignoreDelay, MAX_STEPS_PER_CLAIM, [], db', r)
    ensures r.Claimed? && r.number == number <==> FirstSendable(db, p, now, ignoreDelay, number)
  {
    hide SkippedThen, Reservation, NextNumber, DelayPassed, Defined, Usable, StepIdOf, ChannelOf, Numbers, UnreachableRun;
    var n := UnreachableRun(db, p, start, MAX_STEPS_PER_CLAIM);
    if FirstSendable(db, p, now, ignoreDelay, number) {
      assert !Unreachable(db, p, number);
      assert number == start + n;
    }
  }

  /** The reservation of the first sendable step is rejected by the unique index: the step has no step row,
      and the pair already has a live touch without one. */
  predicate Rejected(db: Db, p: Pair, number: int) { IndexRejects(db.messages, p, StepIdOf(db, p, number)) }

  /** Where the loop stops, before the index has its say. */
  ghost predicate LoopStops(db: Db, p: Pair, now: int, ignoreDelay: bool, number: int, db': Db, r: ClaimResult) {
    var start := NextNumber(db, p);
    && (r.Claimed? && r.number == number <==> FirstSendable(db, p, now, ignoreDelay, number))
    && r.skipped == Numbers(start, |r.skipped|)
    && SkippedThen(db, p, now, start, |r.skipped|, Reservation(p, now, r), db')
    && (r.Claimed? ==>
          && |r.skipped| == r.number - start && r.messageId == db.nextId + |r.skipped|
          && r.stepId == StepIdOf(db, p, r.number))
    && (r.NotClaimed? ==> r.code != RolledBack)
  }

  lemma SearchStops(db: Db, p: Pair, now: int, ignoreDelay: bool, number: int, db': Db, r: ClaimResult)
    requires p.lead in db.leads
    requires SearchesInOrder(db, p, NextNumber(db, p), now, ignoreDelay, MAX_STEPS_PER_CLAIM, [], db', r)
    ensures LoopStops(db, p, now, ignoreDelay, number, db', r)
  {
    hide NextNumber, DelayPassed, Usable, StepIdOf, ChannelOf, SkippedThen;
    var start := NextNumber(db, p);
    SearchFindsFirstSendable(db, p, start, now, ignoreDelay, db', r, number);
    hide FirstSendable;
    var n := UnreachableRun(db, p, start, MAX_STEPS_PER_CLAIM);
    assert [] + Numbers(start, n) == Numbers(start, n);
  }

  lemma LoopTakesFirstSendable(db: Db, p: Pair, now: int, ignoreDelay: bool, number: int)
    requires WellFormed(db) && Outlook(db, p) == Prospect(None, true, NextNumber(db, p))
    ensures var result := ClaimFrom(db, p, now, ignoreDelay, MAX_STEPS_PER_CLAIM, []);
            LoopStops(db, p, now, ignoreDelay, number, result.0, result.1)
  {
    hide ClaimFrom, SearchesInOrder, LoopStops, NextNumber, SkipsAdvance;
    var start, limit: nat, none: seq<int> := NextNumber(db, p), MAX_STEPS_PER_CLAIM, [];
    LoopSearchesInOrder(db, p, start, now, ignoreDelay, limit, none);
    assert Gate(db, p).None?;
    var result := ClaimFrom(db, p, now, ignoreDelay, limit, none);
    SearchStops(db, p, now, ignoreDelay, number, result.0, result.1);
  }

  lemma NothingSkipped(db: Db, p: Pair, now: int, start: int)
    ensures SkippedThen(db, p, now, start, 0, [], db) && Numbers(start, 0) == []
  {
  }

  /** The step a claim for the lead may reserve: the first sendable one, if nothing holds the lead back; where skips
      do not advance the lead, only the step it is at. */
  ghost predicate Reservable(db: Db, p: Pair, now: int, ignoreDelay: bool, number: int) {
    && Gate(db, p).None? && FirstSendable(db, p, now, ignoreDelay, number)
    && (SkipsAdvance(db, p) || number == NextNumber(db, p))
  }

  /** What the loop leaves when it reserves a step: one skip row for each step passed over, and the reservation. */
  ghost predicate ReservedAfterSkips(db: Db, p: Pair, now: int, db': Db, r: ClaimResult)
    requires r.Claimed?
  {
    var start := NextNumber(db, p);
    && r.number >= start && r.skipped == Numbers(start, r.number - start)
    && SkippedThen(db, p, now, start, r.number - start, Reservation(p, now, r), db')
    && r.messageId == db.nextId + (r.number - start) && r.stepId == StepIdOf(db, p, r.number)
  }

  ghost predicate LoopReserves(db: Db, p: Pair, now: int, ignoreDelay: bool, number: int, db': Db, r: ClaimResult) {
    && (r.Claimed? && r.number == number <==> Reservable(db, p, now, ignoreDelay, number))
    && (r.Claimed? ==> ReservedAfterSkips(db, p, now, db', r))
    && (r.NotClaimed? ==> r.code != RolledBack)
  }

  lemma AdvancingLoopReserves(db: Db, p: Pair, now: int, ignoreDelay: bool, number: int)
    requires WellFormed(db) && Gate(db, p).None? && SkipsAdvance(db, p)
    ensures var result := ClaimFrom(db, p, now, ignoreDelay, MAX_STEPS_PER_CLAIM, []);
            LoopReserves(db, p, now, ignoreDelay, number, result.0, result.1)
  {
    hide ClaimFrom, FirstSendable, NextNumber, Gate, SkipsAdvance, StepIdOf, SkippedThen;
    LoopTakesFirstSendable(db, p, now, ignoreDelay, number);
  }

  lemma StuckLoopReserves(db: Db, p: Pair, now: int, ignoreDelay: bool, number: int)
    requires WellFormed(db) && Gate(db, p).None? && !SkipsAdvance(db, p)
    ensures var result := ClaimFrom(db, p, now, ignoreDelay, MAX_STEPS_PER_CLAIM, []);
            LoopReserves(db, p, now, ignoreDelay, number, result.0, result.1)
  {
    hide NextNumber, SkipsAdvance, StepIdOf, ChannelOf, DelayPassed, Usable;
    var start, limit: nat, none: seq<int> := NextNumber(db, p), MAX_STEPS_PER_CLAIM, [];
    assert p.lead in db.leads;
    if Unreachable(db, p, start) {
      StuckLoopRepeats(db, p, start, now, ignoreDelay, limit, none);
    } else {
      StopsAtOnce(db, p, start, now, ignoreDelay, limit);
    }
  }

  /** A search that ends at its first visit. */
  lemma StopsAtOnce(db: Db, p: Pair, start: int, now: int, ignoreDelay: bool, fuel: nat)
    requires WellFormed(db) && Gate(db, p).None? && NextNumber(db, p) == start && !Unreachable(db, p, start) && fuel > 0
    ensures var result := ClaimFrom(db, p, now, ignoreDelay, fuel, []);
            if Defined(db, p, start) && DelayPassed(db, p, start, now, ignoreDelay)
            then result.1 == Claimed(db.nextId, start, ChannelOf(db, p, start), StepIdOf(db, p, start), [])
                 && SkippedThen(db, p, now, start, 0, Reservation(p, now, result.1), result.0)
            else result.1.NotClaimed? && result.1.code != RolledBack
  {
    hide NextNumber, StepIdOf, ChannelOf, DelayPassed, Usable;
  }

  lemma HeldBackReservesNothing(db: Db, p: Pair, now: int, ignoreDelay: bool)
    requires Gate(db, p).Some?
    ensures Claim(db, p, now, ignoreDelay) == (db, NotClaimed(Gate(db, p).value, []))
  {
    hide Gate;
  }

  lemma LoopReservesExactly(db: Db, p: Pair, now: int, ignoreDelay: bool, number: int)
    requires WellFormed(db) && Gate(db, p).None?
    ensures var result := ClaimFrom(db, p, now, ignoreDelay, MAX_STEPS_PER_CLAIM, []);
            LoopReserves(db, p, now, ignoreDelay, number, result.0, result.1)
  {
    hide *;
    if SkipsAdvance(db, p) {
      AdvancingLoopReserves(db, p, now, ignoreDelay, number);
    } else {
      StuckLoopReserves(db, p, now, ignoreDelay, number);
    }
  }

  /** For every lead, a claim reserves step `number` exactly when that is its reservable step and the index lets
      it in. It then leaves one skip row for each step passed over and the reservation, and nothing else; a
      claim the index rejects leaves nothing at all. */
  lemma ClaimTakesFirstSendable(db: Db, p: Pair, now: int, ignoreDelay: bool, number: int)
    requires WellFormed(db)
    ensures var db', r := Claim(db, p, now, ignoreDelay).0, Claim(db, p, now, ignoreDelay).1;
            && (r.Claimed? && r.number == number <==> Reservable(db, p, now, ignoreDelay, number) && !Rejected(db, p, number))
            && (Reservable(db, p, now, ignoreDelay, number) && Rejected(db, p, number) ==>
                  r == NotClaimed(RolledBack, []) && db' == db)
            && (r.Claimed? ==> ReservedAfterSkips(db, p, now, db', r))
  {
    hide ClaimFrom, FirstSendable, NextNumber, Gate, SkipsAdvance, StepIdOf, IndexRejects, SkippedThen;
    if Gate(db, p).None? {
      LoopReservesExactly(db, p, now, ignoreDelay, number);
    } else {
      HeldBackReservesNothing(db, p, now, ignoreDelay);
    }
  }

  /** Exactly when a claim is rejected by the index, for every lead. */
  lemma ClaimRejectedExactly(db: Db, p: Pair, now: int, ignoreDelay: bool)
    requires WellFormed(db)
    ensures var r := Claim(db, p, now, ignoreDelay).1;
            r.NotClaimed? && r.code == RolledBack
            <==> exists number :: Reservable(db, p, now, ignoreDelay, number) && Rejected(db, p, number)
  {
    hide ClaimFrom, FirstSendable, Gate, SkipsAdvance, NextNumber, StepIdOf, SkippedThen, IndexRejects;
    if Gate(db, p).None? {
      var r := ClaimFrom(db, p, now, ignoreDelay, MAX_STEPS_PER_CLAIM, []).1;
      LoopReservesExactly(db, p, now, ignoreDelay, if r.Claimed? then r.number else 0);
      if number :| Reservable(db, p, now, ignoreDelay, number) && Rejected(db, p, number) {
        ClaimTakesFirstSendable(db, p, now, ignoreDelay, number);
      }
    } else {
      HeldBackReservesNothing(db, p, now, ignoreDelay);
      GateIsNoRejection(db, p);
    }
  }

  lemma GateIsNoRejection(db: Db, p: Pair)
    ensures Gate(db, p) != Some(RolledBack)
  {
  }

  /** A lead whose skips advance it: a claim that reserves nothing and is not rejected leaves skip rows for
      consecutive steps only. */
  lemma UnclaimedSkipsInOrder(db: Db, p: Pair, now: int, ignoreDelay: bool)
    requires WellFormed(db) && Gate(db, p).None? && SkipsAdvance(db, p)
    ensures var db', r := Claim(db, p, now, ignoreDelay).0, Claim(db, p, now, ignoreDelay).1;
            && r.skipped == Numbers(NextNumber(db, p), |r.skipped|)
            && SkippedThen(db, p, now, NextNumber(db, p), |r.skipped|, Reservation(p, now, r), db')
  {
    hide ClaimFrom, FirstSendable, NextNumber, Gate, SkipsAdvance, StepIdOf, IndexRejects;
    LoopTakesFirstSendable(db, p, now, ignoreDelay, 0);
    NothingSkipped(db, p, now, NextNumber(db, p));
  }

  /** A lead with a live touch without a step row is never reserved another step without one. */
  lemma UnlinkedStepsComeOnce(db: Db, p: Pair, now: int, ignoreDelay: bool, id: int)
    requires id in Touches(db.messages, p) && db.messages[id].stepId.None? && db.messages[id].status != Received
    ensures var r := Claim(db, p, now, ignoreDelay).1; r.Claimed? ==> r.stepId.Some?
  {
    hide ClaimFrom;
    assert Indexed(db.messages[id], p);
  }

  // ---- Repeated claims ---------------------------------------------------------------------------

  /** A claim that reserves nothing leaves the lead just past the steps it skipped. */
  lemma {:induction false} UnclaimedPosition(db: Db, p: Pair, start: int, now: int, ignoreDelay: bool, fuel: nat, skipped: seq<int>)
    requires WellFormed(db) && Outlook(db, p) == Prospect(None, true, start)
    ensures var result := ClaimFrom(db, p, now, ignoreDelay, fuel, skipped);
            && result.0.defs == db.defs && |result.1.skipped| >= |skipped|
            && (result.1.NotClaimed? ==> Outlook(result.0, p) == Prospect(None, true, start + |result.1.skipped| - |skipped|))
    decreases fuel
  {
    hide SkipsAdvance, NextNumber, LastTime, StepIdOf, ChannelOf, Usable, Counted;
    if fuel > 0 && Unreachable(db, p, start) {
      var db1 := VisitSkips(db, p, start, true, now, ignoreDelay, fuel, skipped);
      var left: nat, later, next := fuel - 1, skipped + [start], start + 1;
      UnclaimedPosition(db1, p, next, now, ignoreDelay, left, later);
    }
  }

  /** The defined steps a lead still has ahead of it. */
  ghost function StepsAhead(db: Db, p: Pair, from: int): set<(int, int)> {
    set key | key in db.defs && key.0 == p.campaign && key.1 >= from
  }

  /** Across repeated claims, the defined steps ahead of the lead are a termination measure: a claim that
      uses all its visits on skips strictly lowers their number. */
  lemma ExhaustedClaimMakesProgress(db: Db, p: Pair, now: int, ignoreDelay: bool)
    requires WellFormed(db) && Outlook(db, p) == Prospect(None, true, NextNumber(db, p))
    requires Claim(db, p, now, ignoreDelay).1.NotClaimed? && Claim(db, p, now, ignoreDelay).1.code == NothingAfterSkipping
    ensures var db' := Claim(db, p, now, ignoreDelay).0;
            && NextNumber(db', p) == NextNumber(db, p) + MAX_STEPS_PER_CLAIM
            && |StepsAhead(db', p, NextNumber(db', p))| < |StepsAhead(db, p, NextNumber(db, p))|
  {
    hide Claim, Gate, SkipsAdvance, NextNumber, StepsAhead, Usable;
    var start := NextNumber(db, p);
    AllVisitsSkipped(db, p, start, now, ignoreDelay);
    PositionAfterUnclaimed(db, p, start, now, ignoreDelay);
    FewerStepsAhead(db, Claim(db, p, now, ignoreDelay).0, p, start);
  }

  lemma PositionAfterUnclaimed(db: Db, p: Pair, start: int, now: int, ignoreDelay: bool)
    requires WellFormed(db) && Outlook(db, p) == Prospect(None, true, start)
    requires Claim(db, p, now, ignoreDelay).1.NotClaimed? && Claim(db, p, now, ignoreDelay).1.code != RolledBack
    ensures Claim(db, p, now, ignoreDelay).0.defs == db.defs
    ensures NextNumber(Claim(db, p, now, ignoreDelay).0, p) == start + |Claim(db, p, now, ignoreDelay).1.skipped|
  {
    UnclaimedPosition(db, p, start, now, ignoreDelay, MAX_STEPS_PER_CLAIM, []);
  }

  lemma AllVisitsSkipped(db: Db, p: Pair, start: int, now: int, ignoreDelay: bool)
    requires WellFormed(db) && Outlook(db, p) == Prospect(None, true, start)
    requires Claim(db, p, now, ignoreDelay).1.NotClaimed? && Claim(db, p, now, ignoreDelay).1.code == NothingAfterSkipping
    ensures |Claim(db, p, now, ignoreDelay).1.skipped| == MAX_STEPS_PER_CLAIM
    ensures Unreachable(db, p, start) && Unreachable(db, p, start + 1)
  {
    var limit: nat, none: seq<int> := MAX_STEPS_PER_CLAIM, [];
    LoopSearchesInOrder(db, p, start, now, ignoreDelay, limit, none);
    assert UnreachableRun(db, p, start, limit) == limit;
  }

  lemma FewerStepsAhead(db: Db, db': Db, p: Pair, start: int)
    requires db'.defs == db.defs && Defined(db, p, start) && Defined(db, p, start + 1)
    ensures |StepsAhead(db', p, start + MAX_STEPS_PER_CLAIM)| < |StepsAhead(db, p, start)|
  {
    var ahead, ahead' := StepsAhead(db, p, start), StepsAhead(db', p, start + MAX_STEPS_PER_CLAIM);
    var passed := if (p.campaign, start) in db.defs then (p.campaign, start) else (p.campaign, start + 1);
    assert passed in ahead && passed !in ahead' && ahead' <= ahead - {passed};
    SubsetIsSmaller(ahead', ahead, passed);
  }

  lemma SubsetIsSmaller<T>(a: set<T>, b: set<T>, x: T)
    requires a <= b - {x} && x in b
    ensures |a| < |b|
  {
    assert b == (b - a) + a;
    assert x in b - a;
    assert |b - a| > 0;
  }

  function Repeated(number: int, n: nat): seq<int> { seq(n, i => number) }

  /** The new table: the old one and `n` skip rows for one step; the lead is where it was. */
  ghost predicate OnTheSpot(db: Db, p: Pair, start: int, now: int, n: nat, db': Db) {
    && WellFormed(db') && Outlook(db', p) == Prospect(None, false, start) && Unreachable(db', p, start)
    && db'.nextId == db.nextId + n
    && (forall id :: db.nextId <= id < db'.nextId ==> id in db'.messages && db'.messages[id] == SkipRow(db, p, start, now))
    && (forall id :: id in db.messages ==> id in db'.messages && db'.messages[id] == db.messages[id])
  }

  lemma OnTheSpotAfterSkip(db: Db, db1: Db, p: Pair, start: int, now: int, n: nat, db': Db)
    requires IsAfterSkip(db, db1, p, start, now) && OnTheSpot(db1, p, start, now, n, db')
    ensures OnTheSpot(db, p, start, now, n + 1, db')
  {
    hide Outlook, WellFormed, Unreachable;
    SameStepsSameRow(db, db1, p, now);
    hide SkipRow;
  }

  lemma RepeatedOnce(start: int, left: nat, skipped: seq<int>)
    ensures skipped + [start] + Repeated(start, left) == skipped + Repeated(start, left + 1)
    ensures skipped + Repeated(start, 0) == skipped
  {
  }

  /** When skips do not advance the lead, the loop visits one unreachable step over and over: every visit
      leaves a skip row for it, nothing is reserved, and the lead is where it was, so the next claim does
      the same again. */
  lemma {:induction false} StuckLoopRepeats(db: Db, p: Pair, start: int, now: int, ignoreDelay: bool, fuel: nat, skipped: seq<int>)
    requires WellFormed(db) && Outlook(db, p) == Prospect(None, false, start) && Unreachable(db, p, start)
    ensures var result := ClaimFrom(db, p, now, ignoreDelay, fuel, skipped);
            && result.1 == NotClaimed(NothingAfterSkipping, skipped + Repeated(start, fuel))
            && OnTheSpot(db, p, start, now, fuel, result.0)
    decreases fuel
  {
    hide Outlook, Unreachable, WellFormed, IsAfterSkip, Repeated, FindNext, RecordSkip;
    if fuel > 0 {
      hide OnTheSpot;
      var db1 := VisitSkips(db, p, start, false, now, ignoreDelay, fuel, skipped);
      hide ClaimFrom;
      AfterSkipSameReach(db, db1, p, start, now);
      var left: nat, later := fuel - 1, skipped + [start];
      StuckLoopRepeats(db1, p, start, now, ignoreDelay, left, later);
      RepeatedOnce(start, left, skipped);
      OnTheSpotAfterSkip(db, db1, p, start, now, left, ClaimFrom(db1, p, now, ignoreDelay, left, later).0);
    } else {
      RepeatedOnce(start, 0, skipped);
    }
  }

  lemma AfterSkipSameReach(db: Db, db1: Db, p: Pair, start: int, now: int)
    requires IsAfterSkip(db, db1, p, start, now)
    ensures Unreachable(db1, p, start) == Unreachable(db, p, start)
  {
    SameStepsSameReach(db, db1, p, start);
  }

  /** At an unreachable step, a claim skips strictly consecutive steps exactly when the lead has a
      campaign_leads row and its last counted touch has no linked step. */
  lemma SkipsAreConsecutiveExactlyWhenTheyAdvance(db: Db, p: Pair, now: int, ignoreDelay: bool)
    requires WellFormed(db) && Gate(db, p).None? && Unreachable(db, p, NextNumber(db, p))
    ensures var r := Claim(db, p, now, ignoreDelay).1;
            r.skipped == Numbers(NextNumber(db, p), |r.skipped|) <==> SkipsAdvance(db, p)
  {
    var start := NextNumber(db, p);
    var r := Claim(db, p, now, ignoreDelay).1;
    if SkipsAdvance(db, p) {
      UnclaimedSkipsInOrder(db, p, now, ignoreDelay);
    } else {
      StuckLoopRepeats(db, p, start, now, ignoreDelay, MAX_STEPS_PER_CLAIM, []);
      assert r.skipped[1] == start;
      assert Numbers(start, 5)[1] == start + 1;
    }
  }
}

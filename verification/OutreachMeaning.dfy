/** What the sequence engine reserves, in terms of the messages, the steps and the lead's addresses themselves. */
module OutreachMeaning {
  import opened Common
  import opened Messages
  import opened Steps
  import opened Outreach
  import opened StepSearch
  import opened TouchPositions
  import Subjects
  import SubjectMeaning

  // ---- Touches -----------------------------------------------------------------------------------------

  /** An outbound message of the pair that has a status and has neither failed nor been rejected. */
  predicate IsTouch(m: Message, p: Pair) {
    && m.outbound && m.org == p.org && m.campaign == Some(p.campaign) && m.lead == p.lead
    && m.status != Failed && m.status != Rejected && m.status != NoStatus
  }

  ghost predicate Untouched(t: Table, p: Pair) { forall id :: id in t ==> !IsTouch(t[id], p) }

  /** The touch created last; of touches created at the same time, the one with the greatest id. */
  ghost predicate IsLast(t: Table, p: Pair, id: int) {
    && id in t && IsTouch(t[id], p)
    && forall x :: x in t && IsTouch(t[x], p) && x != id ==>
         t[x].createdAt < t[id].createdAt || (t[x].createdAt == t[id].createdAt && x < id)
  }

  lemma LastIsLatest(t: Table, p: Pair, id: int)
    ensures IsLast(t, p, id) <==> Touches(t, p) != {} && Latest(t, Touches(t, p)) == id
    ensures Untouched(t, p) <==> Touches(t, p) == {}
  {
    var touches := Touches(t, p);
    assert forall x :: x in touches <==> x in t && IsTouch(t[x], p);
    if IsLast(t, p, id) {
      assert IsLatest(t, touches, id);
      LatestIsUnique(t, touches, id, Latest(t, touches));
    }
  }

  // ---- Where a lead is ---------------------------------------------------------------------------------

  /** The campaign's touch count of the lead, 0 for a lead without a campaign_leads row. */
  ghost predicate HasCount(db: Db, p: Pair, count: int) {
    if (p.campaign, p.lead) in db.members then db.members[(p.campaign, p.lead)].emailsSent == count else count == 0
  }

  /** The message is linked to the step row with this number. */
  predicate LinkedTo(steps: StepTable, m: Message, number: int) {
    m.stepId.Some? && m.stepId.value in steps && steps[m.stepId.value].number == number
  }

  predicate OnChannel(db: Db, p: Pair, channel: string, number: int) {
    (p.campaign, number) in db.defs && db.defs[(p.campaign, number)].channel == channel
  }

  /** Where a lead is after its last touch `m`: at the step of the linked row; else, where its touch count says; else, with
      count 0, at the least step on the channel of the touch; else at the number of touches sent. */
  ghost predicate StandsAt(db: Db, p: Pair, m: Message, s: int) {
    if exists n :: LinkedTo(db.steps, m, n) then LinkedTo(db.steps, m, s)
    else if !HasCount(db, p, 0) then HasCount(db, p, s)
    else if exists n :: OnChannel(db, p, m.channel, n) then
      OnChannel(db, p, m.channel, s) && forall n :: OnChannel(db, p, m.channel, n) ==> s <= n
    else s == |set id | id in db.messages && IsTouch(db.messages[id], p) && db.messages[id].status == Sent|
  }

  /** Where a lead is: without any touch, where its touch count says. */
  ghost predicate IsAt(db: Db, p: Pair, s: int) {
    && (Untouched(db.messages, p) ==> HasCount(db, p, s))
    && forall id :: IsLast(db.messages, p, id) ==> StandsAt(db, p, db.messages[id], s)
  }

  lemma LinkedNumberMeans(db: Db, m: Message)
    requires WellFormed(db)
    ensures LinkedNumber(db, m) == 0 <==> !exists n :: LinkedTo(db.steps, m, n)
    ensures forall n :: LinkedTo(db.steps, m, n) <==> n != 0 && n == LinkedNumber(db, m)
  {
    if m.stepId.Some? {
      var step := m.stepId.value;
      assert step in db.steps ==> db.steps[step].number >= 1;
    }
    if LinkedNumber(db, m) != 0 {
      assert LinkedTo(db.steps, m, LinkedNumber(db, m));
    }
    forall n
      ensures LinkedTo(db.steps, m, n) <==> n != 0 && n == LinkedNumber(db, m)
    {
    }
  }

  lemma InferredNumberMeans(db: Db, p: Pair, channel: string)
    requires WellFormed(db)
    ensures InferredNumber(db, p, channel) == 0 <==> !exists n :: OnChannel(db, p, channel, n)
    ensures forall n :: OnChannel(db, p, channel, n) ==> 0 < InferredNumber(db, p, channel) <= n
    ensures InferredNumber(db, p, channel) != 0 ==> OnChannel(db, p, channel, InferredNumber(db, p, channel))
  {
    var numbers := ChannelNumbers(db, p.campaign, channel);
    assert forall n :: OnChannel(db, p, channel, n) ==> n in numbers by {
      forall n | OnChannel(db, p, channel, n)
        ensures n in numbers
      {
        assert (p.campaign, n) in db.defs;
      }
    }
    if numbers != {} {
      assert OnChannel(db, p, channel, Least(numbers));
    }
  }

  lemma SentTouchesMeans(t: Table, p: Pair)
    ensures SentTouches(t, p) == set id | id in t && IsTouch(t[id], p) && t[id].status == Sent
  {
    var sent := set id | id in t && IsTouch(t[id], p) && t[id].status == Sent;
    assert forall id :: id in SentTouches(t, p) <==> id in sent;
  }

  lemma CurrentNumberMeans(db: Db, p: Pair, m: Message, s: int)
    requires WellFormed(db)
    ensures CurrentNumber(db, p, m) == s <==> StandsAt(db, p, m, s)
  {
    hide LinkedNumber, InferredNumber, SentTouches;
    LinkedNumberMeans(db, m);
    InferredNumberMeans(db, p, m.channel);
    SentTouchesMeans(db.messages, p);
    hide OnChannel, LinkedTo;
  }

  /** The next step of a lead is the one after where it is. */
  lemma NextNumberMeans(db: Db, p: Pair, s: int)
    requires WellFormed(db)
    ensures NextNumber(db, p) == s + 1 <==> IsAt(db, p, s)
  {
    hide IsLast, Untouched, StandsAt, CurrentNumber;
    var touches := Touches(db.messages, p);
    forall id
      ensures IsLast(db.messages, p, id) <==> touches != {} && Latest(db.messages, touches) == id
    {
      LastIsLatest(db.messages, p, id);
    }
    LastIsLatest(db.messages, p, 0);
    if touches != {} {
      CurrentNumberMeans(db, p, db.messages[Latest(db.messages, touches)], s);
    }
  }

  // ---- What keeps a step from being reserved -----------------------------------------------------------

  /** The lead has what a message on the channel needs: an email address with an @, a telephone number of eight digits,
      a LinkedIn address that is not blank. Other channels need nothing. */
  ghost predicate Reaches(channel: string, lead: Lead) {
    && (channel == "email" ==> exists i :: 0 <= i < |lead.email| && lead.email[i] == '@')
    && (channel == "whatsapp" ==> |DigitsOf(lead.phone)| >= 8)
    && (channel == "linkedin" ==> exists i :: 0 <= i < |lead.linkedin| && !Subjects.IsSpace(lead.linkedin[i]))
  }

  function DigitsOf(s: string): set<int> { set i | 0 <= i < |s| && '0' <= s[i] <= '9' }

  lemma {:induction false} DigitCountMeans(s: string)
    ensures DigitCount(s) == |DigitsOf(s)|
  {
    if s == "" {
      assert forall i :: i !in DigitsOf(s);
      EmptySet(DigitsOf(s));
    } else {
      DigitCountMeans(s[1..]);
      DigitsOfRest(s);
    }
  }

  lemma EmptySet(s: set<int>)
    requires forall i :: i !in s
    ensures |s| == 0
  {
    var none: set<int> := {};
    assert forall i :: i in s <==> i in none;
    assert s == none;
  }

  lemma DigitsOfRest(s: string)
    requires s != ""
    ensures |DigitsOf(s)| == |DigitsOf(s[1..])| + if '0' <= s[0] <= '9' then 1 else 0
  {
    var rest := DigitsOf(s[1..]);
    var moved := set i | i in rest :: i + 1;
    Moved(rest, moved);
    assert forall i :: i in DigitsOf(s) <==> i in moved || (i == 0 && '0' <= s[0] <= '9') by {
      forall i | 0 < i < |s|
        ensures i in DigitsOf(s) <==> i in moved
      {
        assert s[i] == s[1..][i - 1];
        assert i - 1 in rest ==> i in moved;
      }
    }
    if '0' <= s[0] <= '9' {
      assert DigitsOf(s) == moved + {0};
    } else {
      assert DigitsOf(s) == moved;
    }
  }

  lemma {:induction false} Moved(s: set<int>, moved: set<int>)
    requires moved == set i | i in s :: i + 1
    ensures |moved| == |s|
    decreases |s|
  {
    if x :| x in s {
      var rest, rest' := s - {x}, moved - {x + 1};
      var image := set i | i in rest :: i + 1;
      assert forall i :: i in rest' <==> i in image by {
        assert forall i :: i in s && i != x ==> i in rest;
      }
      assert rest' == image;
      Moved(rest, rest');
    } else {
      EmptySet(s);
      EmptySet(moved);
    }
  }

  lemma NotBlank(s: string)
    ensures Subjects.Strip(s) != "" <==> exists i :: 0 <= i < |s| && !Subjects.IsSpace(s[i])
  {
    var stripped := Subjects.Strip(s);
    SubjectMeaning.NoWords(s);
    SubjectMeaning.NoWords(stripped);
    SubjectMeaning.StripKeepsWords(s);
    if stripped != "" {
      assert !Subjects.IsSpace(stripped[|stripped| - 1]);
    }
  }

  lemma UsableMeans(channel: string, lead: Lead)
    ensures ChannelUsable(channel, lead) <==> Reaches(channel, lead)
  {
    hide DigitCount, DigitsOf, Subjects.Strip, Subjects.IsSpace;
    DigitCountMeans(lead.phone);
    NotBlank(lead.linkedin);
  }

  /** A step of the campaign, or the email that stands in for an undefined first step. */
  predicate IsStep(db: Db, p: Pair, number: int) { (p.campaign, number) in db.defs || number == 1 }

  ghost predicate StepChannel(db: Db, p: Pair, number: int, channel: string) {
    if (p.campaign, number) in db.defs then db.defs[(p.campaign, number)].channel == channel else channel == "email"
  }

  /** A step the lead can be reached on. */
  ghost predicate CanReach(db: Db, p: Pair, number: int) {
    p.lead in db.leads && forall channel :: StepChannel(db, p, number, channel) ==> Reaches(channel, db.leads[p.lead])
  }

  /** The instant of the last touch: when it was sent, or else when it was created. */
  predicate HappenedAt(m: Message, at: int) { if m.sentAt.Some? then m.sentAt == Some(at) else m.createdAt == at }

  /** The step has a delay, in days of 86400 seconds, and the last touch is not that long ago. */
  ghost predicate MustWait(db: Db, p: Pair, number: int, now: int) {
    (p.campaign, number) in db.defs && db.defs[(p.campaign, number)].delayDays > 0
    && exists id, at :: IsLast(db.messages, p, id) && HappenedAt(db.messages[id], at)
                        && now < at + db.defs[(p.campaign, number)].delayDays * 86_400
  }

  lemma DelayMeans(db: Db, p: Pair, number: int, now: int, ignoreDelay: bool)
    ensures DelayPassed(db, p, number, now, ignoreDelay) <==> ignoreDelay || !MustWait(db, p, number, now)
  {
    hide IsLast, Untouched;
    var touches := Touches(db.messages, p);
    forall id
      ensures IsLast(db.messages, p, id) <==> touches != {} && Latest(db.messages, touches) == id
    {
      LastIsLatest(db.messages, p, id);
    }
    if touches != {} {
      var last := db.messages[Latest(db.messages, touches)];
      var at := if last.sentAt.Some? then last.sentAt.value else last.createdAt;
      assert HappenedAt(last, at) && LastTime(db, p) == Some(at);
    }
  }

  /** Nothing holds the lead back: it is known, has not opted out, has neither answered nor booked a meeting in this
      campaign, and its last touch, if any, has been sent. */
  ghost predicate Contactable(db: Db, p: Pair) {
    && p.lead in db.leads && !db.leads[p.lead].optOut
    && ((p.campaign, p.lead) in db.members ==>
          !db.members[(p.campaign, p.lead)].meetingBooked && !db.members[(p.campaign, p.lead)].responded)
    && forall id :: IsLast(db.messages, p, id) ==> db.messages[id].status == Sent
  }

  /** The first of these that is the case is the reason a claim is refused for. */
  lemma GateMeans(db: Db, p: Pair)
    ensures Gate(db, p).None? <==> Contactable(db, p)
    ensures p.lead !in db.leads ==> Gate(db, p) == Some(LeadNotFound)
    ensures p.lead in db.leads && db.leads[p.lead].optOut ==> Gate(db, p) == Some(OptedOut)
    ensures var key := (p.campaign, p.lead);
            p.lead in db.leads && !db.leads[p.lead].optOut && key in db.members ==>
              && (db.members[key].meetingBooked ==> Gate(db, p) == Some(MeetingBooked))
              && (!db.members[key].meetingBooked && db.members[key].responded ==> Gate(db, p) == Some(Responded))
    ensures Gate(db, p) == Some(PendingTouch) ==>
              exists id :: IsLast(db.messages, p, id) && db.messages[id].status != Sent
    ensures Gate(db, p).Some? ==> Gate(db, p).value in {LeadNotFound, OptedOut, MeetingBooked, Responded, PendingTouch}
  {
    hide IsLast;
    var touches := Touches(db.messages, p);
    forall id
      ensures IsLast(db.messages, p, id) <==> touches != {} && Latest(db.messages, touches) == id
    {
      LastIsLatest(db.messages, p, id);
    }
  }

  /** The campaign has a step row for the step. */
  ghost predicate HasStepRow(db: Db, p: Pair, number: int) {
    (p.campaign, number) in db.defs
    && exists id :: id in db.steps && db.steps[id].campaign == p.campaign && db.steps[id].number == number
  }

  /** The pair has a live touch without a step row, which the unique index holds against another one. */
  ghost predicate HasUnlinkedTouch(t: Table, p: Pair) {
    exists id :: id in t && IsTouch(t[id], p) && t[id].stepId.None? && t[id].status != Received
  }

  lemma IndexMeans(db: Db, p: Pair, number: int)
    ensures StepSearch.Rejected(db, p, number) <==> !HasStepRow(db, p, number) && HasUnlinkedTouch(db.messages, p)
    ensures var link := StepIdOf(db, p, number);
            && (link.Some? <==> HasStepRow(db, p, number))
            && (link.Some? ==> link.value in db.steps && db.steps[link.value].campaign == p.campaign
                               && db.steps[link.value].number == number)
  {
    LinkMeans(db, p, number);
    hide StepIdOf;
    var t := db.messages;
    assert HasUnlinkedTouch(t, p) <==> exists id :: id in t && Indexed(t[id], p) by {
      forall id | id in t
        ensures Indexed(t[id], p) <==> IsTouch(t[id], p) && t[id].stepId.None? && t[id].status != Received
      {
      }
    }
  }

  lemma LinkMeans(db: Db, p: Pair, number: int)
    ensures var link := StepIdOf(db, p, number);
            && (link.Some? <==> HasStepRow(db, p, number))
            && (link.Some? ==> link.value in db.steps && db.steps[link.value].campaign == p.campaign
                               && db.steps[link.value].number == number)
  {
    var ids := set id | id in db.steps && db.steps[id].campaign == p.campaign && db.steps[id].number == number;
    if id :| id in db.steps && db.steps[id].campaign == p.campaign && db.steps[id].number == number {
      assert id in ids;
    }
  }

  // ---- The claim ---------------------------------------------------------------------------------------

  /** Skipping a step moves the lead on: it has a campaign_leads row, and its last touch, if any, is not linked. */
  ghost predicate MovesOn(db: Db, p: Pair) {
    (p.campaign, p.lead) in db.members
    && forall id, n :: IsLast(db.messages, p, id) ==> !LinkedTo(db.steps, db.messages[id], n)
  }

  lemma SkipsAdvanceMeans(db: Db, p: Pair)
    requires WellFormed(db)
    ensures SkipsAdvance(db, p) <==> MovesOn(db, p)
  {
    hide IsLast, Untouched, LinkedNumber, LinkedTo;
    var touches := Touches(db.messages, p);
    forall id
      ensures IsLast(db.messages, p, id) <==> touches != {} && Latest(db.messages, touches) == id
    {
      LastIsLatest(db.messages, p, id);
    }
    if touches != {} {
      LinkedNumberMeans(db, db.messages[Latest(db.messages, touches)]);
    }
  }

  /** Of the five steps after step `s`, the first the lead can be reached on is `number`, it need not wait, and the steps
      before it can be passed over. */
  ghost predicate IsNextStep(db: Db, p: Pair, s: int, now: int, ignoreDelay: bool, number: int) {
    && s + 1 <= number <= s + 5
    && (forall k :: s + 1 <= k < number ==> IsStep(db, p, k) && !CanReach(db, p, k))
    && IsStep(db, p, number) && CanReach(db, p, number) && (ignoreDelay || !MustWait(db, p, number, now))
    && (number > s + 1 ==> MovesOn(db, p))
  }

  lemma UsableStepMeans(db: Db, p: Pair, number: int)
    requires p.lead in db.leads
    ensures Usable(db, p, number) <==> CanReach(db, p, number)
    ensures StepChannel(db, p, number, ChannelOf(db, p, number))
  {
    hide Reaches, ChannelUsable;
    var channel := ChannelOf(db, p, number);
    assert StepChannel(db, p, number, channel);
    UsableMeans(channel, db.leads[p.lead]);
  }

  lemma ReservableMeans(db: Db, p: Pair, s: int, now: int, ignoreDelay: bool, number: int)
    requires WellFormed(db) && IsAt(db, p, s)
    ensures Reservable(db, p, now, ignoreDelay, number)
            <==> Contactable(db, p) && IsNextStep(db, p, s, now, ignoreDelay, number)
  {
    hide Gate, NextNumber, IsAt, Contactable, SkipsAdvance, MovesOn, DelayPassed, MustWait, Usable, CanReach;
    GateMeans(db, p);
    NextNumberMeans(db, p, s);
    SkipsAdvanceMeans(db, p);
    DelayMeans(db, p, number, now, ignoreDelay);
    if Gate(db, p).None? {
      ContactableIsKnown(db, p);
      forall k
        ensures Unreachable(db, p, k) <==> IsStep(db, p, k) && !CanReach(db, p, k)
      {
        UsableStepMeans(db, p, k);
      }
      UsableStepMeans(db, p, number);
    }
  }

  lemma ContactableIsKnown(db: Db, p: Pair)
    requires Contactable(db, p)
    ensures p.lead in db.leads
  {
  }

  /** A claim for a lead that is at step `s` reserves step `number` if and only if the lead may be contacted, that is its
      next step, and the step has a step row or the pair has no live touch without one. */
  lemma ClaimMeans(db: Db, p: Pair, s: int, now: int, ignoreDelay: bool, number: int)
    requires WellFormed(db) && IsAt(db, p, s)
    ensures var r := Claim(db, p, now, ignoreDelay).1;
            r.Claimed? && r.number == number
            <==> && Contactable(db, p) && IsNextStep(db, p, s, now, ignoreDelay, number)
                 && (HasStepRow(db, p, number) || !HasUnlinkedTouch(db.messages, p))
  {
    hide *;
    ClaimTakesFirstSendable(db, p, now, ignoreDelay, number);
    ReservableMeans(db, p, s, now, ignoreDelay, number);
    IndexMeans(db, p, number);
  }

  /** A lead without touches and with touch count 0 starts at the first step that it can be reached on, counting
      from step 1. */
  lemma FreshClaimMeans(db: Db, p: Pair, now: int, ignoreDelay: bool, number: int)
    requires WellFormed(db) && Untouched(db.messages, p) && HasCount(db, p, 0)
    ensures var r := Claim(db, p, now, ignoreDelay).1;
            r.Claimed? && r.number == number
            <==> && p.lead in db.leads && !db.leads[p.lead].optOut
                 && ((p.campaign, p.lead) in db.members ==>
                       !db.members[(p.campaign, p.lead)].meetingBooked && !db.members[(p.campaign, p.lead)].responded)
                 && 1 <= number <= 5
                 && (forall k :: 1 <= k < number ==> IsStep(db, p, k) && !CanReach(db, p, k))
                 && IsStep(db, p, number) && CanReach(db, p, number)
                 && (number > 1 ==> (p.campaign, p.lead) in db.members)
  {
    hide Claim, HasStepRow, CanReach, StandsAt;
    assert forall id :: !IsLast(db.messages, p, id);
    assert IsAt(db, p, 0);
    ClaimMeans(db, p, 0, now, ignoreDelay, number);
  }

  /** The row a claim reserves: a new one for the pair, being generated, on the channel of its step and linked to
      the step row of that number, if the campaign has one. */
  lemma ReservedRowMeans(db: Db, p: Pair, now: int, ignoreDelay: bool)
    requires WellFormed(db) && Claim(db, p, now, ignoreDelay).1.Claimed?
    ensures var claimed, r := Claim(db, p, now, ignoreDelay).0.messages, Claim(db, p, now, ignoreDelay).1;
            && r.messageId !in db.messages && r.messageId in claimed
            && var m := claimed[r.messageId];
               && m.outbound && m.org == p.org && m.campaign == Some(p.campaign) && m.lead == p.lead
               && m.status == Generating && m.approved == 0 && m.createdAt == now && m.sentAt.None?
               && StepChannel(db, p, r.number, m.channel)
               && (HasStepRow(db, p, r.number) ==>
                     LinkedTo(db.steps, m, r.number) && db.steps[m.stepId.value].campaign == p.campaign)
               && (!HasStepRow(db, p, r.number) ==> m.stepId.None?)
  {
    hide Claim, WellFormed, SameHistory, Gate, NextNumber, Usable, DelayPassed, StepIdOf, HasStepRow, Touches;
    var r := Claim(db, p, now, ignoreDelay).1;
    ReservedRow(db, p, now, ignoreDelay);
    var before := ClaimShape(db, p, now, ignoreDelay);
    SameStepsSameLink(db, before, p, r.number);
    LinkMeans(db, p, r.number);
    KnownIds(db, r.messageId);
  }

  lemma SameStepsSameLink(db: Db, before: Db, p: Pair, number: int)
    requires before.defs == db.defs && before.steps == db.steps
    ensures ChannelOf(before, p, number) == ChannelOf(db, p, number) && StepIdOf(before, p, number) == StepIdOf(db, p, number)
  {
  }

  lemma KnownIds(db: Db, id: int)
    requires WellFormed(db) && db.nextId <= id
    ensures id !in db.messages
  {
  }

  // ---- Single writes -----------------------------------------------------------------------------------

  /** The members differ in nothing but the touch count of the pair. */
  ghost predicate OnlyCount(members: map<(int, int), Member>, members': map<(int, int), Member>, p: Pair, count: int) {
    && (p.campaign, p.lead) in members'
    && members'[(p.campaign, p.lead)].emailsSent == count
    && (forall key :: key in members && key != (p.campaign, p.lead) ==> key in members' && members'[key] == members[key])
    && (forall key :: key in members' ==> key in members || key == (p.campaign, p.lead))
    && ((p.campaign, p.lead) in members ==>
          var m, m' := members[(p.campaign, p.lead)], members'[(p.campaign, p.lead)];
          m'.responded == m.responded && m'.meetingBooked == m.meetingBooked)
  }

  /** A skip adds a failed row for the pair and never lowers its touch count, which is at least the step's number then. */
  lemma SkipMeans(db: Db, p: Pair, step: Candidate, now: int, count: int)
    requires WellFormed(db) && step.Skip? && HasCount(db, p, count)
    ensures var db' := RecordSkip(db, p, step, now);
            && db'.nextId == db.nextId + 1 && db.nextId in db'.messages
            && (forall id :: id in db'.messages && id != db.nextId <==> id in db.messages)
            && (forall id :: id in db.messages ==> db'.messages[id] == db.messages[id])
            && (var m := db'.messages[db.nextId];
                && m.outbound && m.org == p.org && m.campaign == Some(p.campaign) && m.lead == p.lead
                && m.status == Failed && m.approved == 0 && m.stepId == step.stepId && m.channel == step.channel
                && m.createdAt == now)
            && db'.leads == db.leads && db'.defs == db.defs && db'.steps == db.steps
            && ((p.campaign, p.lead) !in db.members ==> db'.members == db.members)
            && ((p.campaign, p.lead) in db.members ==>
                  && (step.number <= count ==> OnlyCount(db.members, db'.members, p, count))
                  && (step.number > count ==> OnlyCount(db.members, db'.members, p, step.number)))
  {
  }

  /** A touch that was sent or saved adds one to the pair's touch count, making the campaign_leads row if there is none. */
  lemma BumpMeans(db: Db, p: Pair, count: int)
    requires HasCount(db, p, count)
    ensures var db' := BumpTouchCount(db, p);
            && OnlyCount(db.members, db'.members, p, count + 1)
            && db'.messages == db.messages && db'.nextId == db.nextId
            && db'.leads == db.leads && db'.defs == db.defs && db'.steps == db.steps
  {
  }

  /** A reservation that is sent is SENT and approved from `now` on; one that is saved is a DRAFT nobody has approved. */
  lemma CompleteMeans(t: Table, id: int, sent: bool, subject: string, body: string, channel: string, now: int)
    requires id in t
    ensures var t' := Complete(t, id, sent, subject, body, channel, now);
            && (forall x :: x in t' <==> x in t) && (forall x :: x in t && x != id ==> t'[x] == t[x])
            && SameTouch(t[id], t'[id]) && t'[id].subject == subject && t'[id].body == body && t'[id].channel == channel
            && t'[id].lastError.None? && t'[id].attempts == t[id].attempts && t'[id].scheduledAt == t[id].scheduledAt
            && (sent ==> t'[id].status == Sent && t'[id].approved == 1 && t'[id].sentAt == Some(now))
            && (!sent ==> t'[id].status == Draft && t'[id].approved == 0 && t'[id].sentAt == t[id].sentAt)
  {
  }

  /** Only a reservation still being generated is failed. */
  lemma FailMeans(t: Table, id: int, error: string)
    ensures var t' := Fail(t, id, error);
            && (forall x :: x in t' <==> x in t) && (forall x :: x in t && x != id ==> t'[x] == t[x])
            && (id in t && t[id].status != Generating ==> t'[id] == t[id])
            && (id in t && t[id].status == Generating ==>
                  && t'[id].status == Failed && t'[id].lastError == Some(Provider(error)) && SameTouch(t[id], t'[id])
                  && t'[id].approved == t[id].approved && t'[id].sentAt == t[id].sentAt)
  {
  }
}

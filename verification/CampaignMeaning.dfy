/** What a campaign run makes of one reserved touch, branch by branch. */
module CampaignMeaning {
  import opened Common
  import opened Messages
  import opened Outreach
  import opened StepSearch
  import opened CampaignRun
  import opened MarketingAgent
  import opened OutreachMeaning

  /** A run takes the campaign's own limit, if it has one, but no more than the platform's, and at least one touch. */
  lemma BatchSizeMeans(requested: Option<int>, limit: int)
    ensures var b := BatchSize(requested, limit);
            && b >= 1 && (b <= limit || b == 1)
            && (requested.None? || requested == Some(0) ==> b == limit || limit < 1)
            && (forall n :: requested == Some(n) && n != 0 ==> (b <= n || b == 1) && (1 <= n <= limit ==> b == n))
            && (forall n :: requested == Some(n) && n > limit >= 1 ==> b == limit)
  {
  }

  /** The row still as the claim left it, or failed with this error, according to whether the write was lost. */
  predicate FailedUnlessLost(m: Message, m': Message, error: string, lost: bool) {
    m' == if lost then m else m.(status := Failed, lastError := Some(Provider(error)))
  }

  predicate IsSent(m: Message, m': Message, f: Fortune) {
    && f.writing.Written?
    && m' == m.(status := Sent, approved := 1, sentAt := Some(f.savedAt), lastError := None,
                subject := f.writing.subject, body := f.writing.body, channel := "email")
  }

  predicate IsSaved(m: Message, m': Message, f: Fortune) {
    && f.writing.Written?
    && m' == m.(status := Draft, approved := 0, lastError := None,
                subject := f.writing.subject, body := f.writing.body, channel := f.writing.channel)
  }

  /** The verdict, and whether the touch count goes up. */
  predicate EndsAs(run: Run, r: ClaimResult, f: Fortune, verdict: Verdict, counts: bool)
    requires r.Claimed?
  {
    Judge(run, r, f) == verdict && (CountsTouch(run, r.channel, f) <==> counts)
  }

  lemma NotClaimedMeans(run: Run, r: ClaimResult, f: Fortune)
    ensures Judge(run, r, f) == WasSkipped <==> r.NotClaimed?
  {
  }

  /** The touch could not be written. */
  lemma UnwrittenMeans(run: Run, m: Message, r: ClaimResult, f: Fortune)
    requires r.Claimed? && f.callback.None? && f.writing.WritingRaises?
    ensures EndsAs(run, r, f, WasFailed, false)
    ensures FailedUnlessLost(m, FinalRow(run, m, r, f), f.writing.error, f.failLost)
  {
    ThreeErrors();
  }

  /** A run that sends by itself: the email was not delivered, or it was. A delivered email is SENT, whatever
      raised after its row was saved; when the row could not be saved it is still being generated, or failed if
      something raised. */
  lemma SelfSendingMeans(run: Run, m: Message, r: ClaimResult, f: Fortune)
    requires r.Claimed? && m.channel == r.channel == "email" && run.autoApprove && f.callback.None? && f.writing.Written?
    ensures match f.answer
            case NotDelivered(error) =>
              && EndsAs(run, r, f, WasFailed, false)
              && FailedUnlessLost(m, FinalRow(run, m, r, f), if error == "" then "Email delivery failed" else error, f.failLost)
            case SendRaises(error) =>
              EndsAs(run, r, f, WasFailed, false) && FailedUnlessLost(m, FinalRow(run, m, r, f), error, f.failLost)
            case Delivered =>
              && (f.aftermath.Fine? ==> EndsAs(run, r, f, WasSent, true))
              && (f.aftermath.CountLost? ==> EndsAs(run, r, f, WasSent, false))
              && (f.aftermath.RaisesFirst? ==> EndsAs(run, r, f, WasFailed, false))
              && (f.aftermath.RaisesLast? ==> EndsAs(run, r, f, WasFailed, true))
              && (if !f.saveRaises then IsSent(m, FinalRow(run, m, r, f), f)
                  else if f.aftermath.Fine? || f.aftermath.CountLost? then FinalRow(run, m, r, f) == m
                  else FailedUnlessLost(m, FinalRow(run, m, r, f), f.aftermath.error, f.failLost))
  {
    ThreeErrors();
  }

  /** Any other touch is saved for review. When that fails the row is failed. */
  lemma SavingMeans(run: Run, m: Message, r: ClaimResult, f: Fortune)
    requires r.Claimed? && m.channel == r.channel && !(run.autoApprove && r.channel == "email")
    requires f.callback.None? && f.writing.Written?
    ensures if f.saveRaises then
              EndsAs(run, r, f, WasFailed, false) && FailedUnlessLost(m, FinalRow(run, m, r, f), "database error", f.failLost)
            else
              && IsSaved(m, FinalRow(run, m, r, f), f)
              && (f.aftermath.Fine? ==> EndsAs(run, r, f, WasDrafted, true))
              && (f.aftermath.CountLost? ==> EndsAs(run, r, f, WasDrafted, false))
              && (f.aftermath.RaisesFirst? ==> EndsAs(run, r, f, WasFailed, false))
              && (f.aftermath.RaisesLast? ==> EndsAs(run, r, f, WasFailed, true))
  {
    ThreeErrors();
  }

  lemma ThreeErrors()
    ensures DELIVERY_FAILED == "Email delivery failed" && SAVE_FAILED == "database error"
  {
  }

  /** An announcement that raises leaves a saved or failed row as it is. A row still being generated is failed with the
      error of the announcement, unless that write is lost too. */
  lemma InterruptedMeans(run: Run, m: Message, r: ClaimResult, f: Fortune, error: string)
    requires r.Claimed? && m.channel == r.channel && m.status == Generating && f.callback == Some(error)
    ensures var calm := f.(callback := None);
            && Judge(run, r, f) == Judge(run, r, calm)
            && (CountsTouch(run, r.channel, f) <==> CountsTouch(run, r.channel, calm))
            && (FinalRow(run, m, r, calm).status != Generating ==> FinalRow(run, m, r, f) == FinalRow(run, m, r, calm))
            && (FinalRow(run, m, r, calm).status == Generating && Announces(run, r, f) ==>
                  FailedUnlessLost(m, FinalRow(run, m, r, f), error, f.refailLost))
  {
    CallbackAside(run, r.channel, f);
    hide ErrorOf, ReadyToSave, SendsItself;
  }

  /** What is written before the announcement does not depend on it. */
  lemma CallbackAside(run: Run, channel: string, f: Fortune)
    ensures var calm := f.(callback := None);
            && ReadyToSave(run, channel, f) == ReadyToSave(run, channel, calm)
            && ErrorOf(run, channel, f) == ErrorOf(run, channel, calm)
  {
  }

  /** Every candidate is announced by a callback of its own, except when writing it, sending it or what follows its
      sending raised. */
  lemma AnnouncesMeans(run: Run, r: ClaimResult, f: Fortune)
    ensures Announces(run, r, f)
            <==> || r.NotClaimed?
                 || (f.writing.Written?
                     && !(run.autoApprove && r.channel == "email" && f.answer.SendRaises?)
                     && !(run.autoApprove && r.channel == "email" && f.answer.Delivered?
                          && (f.aftermath.RaisesFirst? || f.aftermath.RaisesLast?)))
  {
  }

  /** A touch that counts raises its pair's touch count by one, making the campaign_leads row if there is none; one that does
      not leaves every count alone. No other row of any table changes. */
  lemma SettledMeans(run: Run, db: Db, p: Pair, r: ClaimResult, f: Fortune, count: int)
    requires r.Claimed? && r.messageId in db.messages && HasCount(db, p, count)
    ensures var db' := Settled(run, db, p, r, f);
            && (if CountsTouch(run, r.channel, f) then OnlyCount(db.members, db'.members, p, count + 1) else db'.members == db.members)
            && (forall id :: id in db'.messages <==> id in db.messages)
            && (forall id :: id in db.messages && id != r.messageId ==> db'.messages[id] == db.messages[id])
            && db'.nextId == db.nextId && db'.leads == db.leads && db'.defs == db.defs && db'.steps == db.steps
  {
    hide CountsTouch, WrittenRow, HasCount;
    BumpMeans(db, p, count);
  }

  // ---- The counters ------------------------------------------------------------------------------------

  /** The candidates among the first `k` that got a verdict, that were claimed, and whose announcement raised. */
  ghost function WithVerdict(run: Run, db: Db, v: Verdict, k: nat): set<int>
    requires k <= |run.leads|
  {
    set i: nat | i < k && Judge(run, ClaimAt(run, db, i), run.fortune(i)) == v
  }

  ghost function WithClaim(run: Run, db: Db, k: nat): set<int>
    requires k <= |run.leads|
  {
    set i: nat | i < k && ClaimAt(run, db, i).Claimed?
  }

  ghost function WithCallbackError(run: Run, db: Db, k: nat): set<int>
    requires k <= |run.leads|
  {
    set i: nat | i < k && run.fortune(i).callback.Some? && Announces(run, ClaimAt(run, db, i), run.fortune(i))
  }

  lemma {:induction false} CountsMean(run: Run, db: Db, v: Verdict, k: nat)
    requires k <= |run.leads|
    ensures Count(run, db, v, k) == |WithVerdict(run, db, v, k)| && ClaimCount(run, db, k) == |WithClaim(run, db, k)|
    ensures Interruptions(run, db, k) == |WithCallbackError(run, db, k)|
  {
    hide Judge, ClaimAt, Announces;
    if k == 0 {
      var none: set<int> := {};
      assert WithVerdict(run, db, v, 0) == none && WithClaim(run, db, 0) == none && WithCallbackError(run, db, 0) == none;
    } else {
      CountsMean(run, db, v, k - 1);
      var r, f := ClaimAt(run, db, k - 1), run.fortune(k - 1);
      OneMore(WithVerdict(run, db, v, k - 1), WithVerdict(run, db, v, k), k - 1, Judge(run, r, f) == v);
      OneMore(WithClaim(run, db, k - 1), WithClaim(run, db, k), k - 1, r.Claimed?);
      OneMore(WithCallbackError(run, db, k - 1), WithCallbackError(run, db, k), k - 1, f.callback.Some? && Announces(run, r, f));
    }
  }
}

/** What a scheduler round makes of every row: each claimed draft gets its own answer at its own time, and the counters
    count the answers. */
module RoundMeaning {
  import opened Common
  import opened Messages
  import opened Drafts
  import opened ClaimSelection
  import opened QueueRounds
  import opened DraftMeaning
  import DraftService
  import IsoTime

  /** An instant in microseconds is stored as the second it lies in, the one its text stands for. */
  lemma SecondsMean(instant: int)
    ensures DraftService.Seconds(instant) * 1_000_000 <= instant < (DraftService.Seconds(instant) + 1) * 1_000_000
    ensures IsoTime.Representable(instant) ==> IsoTime.NowIso(instant) == IsoTime.IsoOf(DraftService.Seconds(instant))
  {
    hide IsoTime.IsoOf;
  }

  /** A send looks at its own row and writes its own row. */
  lemma SendIsLocal(cfg: Config, t: Table, u: Table, id: int, org: Option<int>, actor: string, now: int, outcome: Outcome)
    requires id in t && id in u && u[id] == t[id]
    ensures var t', u' := SendOne(cfg, t, id, org, actor, now, outcome), SendOne(cfg, u, id, org, actor, now, outcome);
            id in t' && id in u' && u'[id] == t'[id] && OnlyRow(t, t', id)
  {
    hide AfterSend, AttemptStarted;
  }

  /** After the first `n` sends each of them has had its effect on its own row, and no other row has changed. */
  lemma {:induction false} FirstSends(cfg: Config, t: Table, r: Round, n: nat)
    requires n <= |r.ids| && Distinct(r.ids) && forall id :: id in r.ids ==> id in t
    ensures var t' := SendFirst(cfg, t, r, n);
            && (forall id :: id in t' <==> id in t)
            && (forall id :: id in t && id !in r.ids[..n] ==> t'[id] == t[id])
            && (forall k :: 0 <= k < n ==> r.ids[k] in t && r.ids[k] in t' && SentAs(cfg, t, t', r, k))
  {
    hide SendOne;
    if n > 0 {
      FirstSends(cfg, t, r, n - 1);
      var before, id := SendFirst(cfg, t, r, n - 1), r.ids[n - 1];
      assert r.ids[..n] == r.ids[..n - 1] + [id];
      assert id in r.ids && id !in r.ids[..n - 1];
      SendIsLocal(cfg, before, t, id, r.org, r.actor, r.clock(n - 1), r.answer(n - 1));
      SendIsLocal(cfg, t, t, id, r.org, r.actor, r.clock(n - 1), r.answer(n - 1));
    }
  }

  /** The row of the `k`-th draft is what one send of it, with its own answer at its own time, leaves. */
  ghost predicate SentAs(cfg: Config, t: Table, t': Table, r: Round, k: nat)
    requires k < |r.ids| && r.ids[k] in t && r.ids[k] in t'
  {
    var id := r.ids[k];
    var sent := SendOne(cfg, t, id, r.org, r.actor, r.clock(k), r.answer(k));
    id in sent && t'[id] == sent[id]
  }

  /** What a round makes of the `k`-th draft it claimed: delivered, it is SENT when its answer came; refused for its content,
      it has failed; otherwise it waits for the retry delay after its answer, or is back in review without attempts
      left. Every other row is as the sweep left it. */
  lemma RoundMeans(cfg: Config, t: Table, r: Round, k: nat)
    requires RoundPossible(cfg, t, r) && k < |r.ids|
    ensures var t' := RoundResult(cfg, t, r);
            && (forall id :: id in t' <==> id in t)
            && (forall id :: id in t && id !in r.ids ==> t'[id] == Swept(cfg, t[id], r.cutoff, r.org))
            && r.ids[k] in t && r.ids[k] in t'
            && AnsweredAs(cfg, Swept(cfg, t[r.ids[k]], r.cutoff, r.org), t'[r.ids[k]], r.answer(k), r.clock(k))
  {
    hide Swept, SentAs, SendOne, AnsweredAs, Due;
    ClaimFrames(cfg, t, r);
    var claimed, id := Claimed(cfg, t, r), r.ids[k];
    FirstSends(cfg, claimed, r, |r.ids|);
    assert r.ids[..|r.ids|] == r.ids;
    var t' := RoundResult(cfg, t, r);
    assert SentAs(cfg, claimed, t', r, k);
    assert id in r.ids;
    SentIsAnswered(cfg, claimed, t', r, k, Swept(cfg, t[id], r.cutoff, r.org));
  }

  /** From the row `m` before the claim to the row `m'` after the answer. */
  ghost predicate AnsweredAs(cfg: Config, m: Message, m': Message, answer: Outcome, at: int) {
    && m'.attempts == m.attempts + 1 && m'.subject == cfg.normalize(m.subject) && m'.body == m.body
    && m'.claimedAt.None?
    && match answer
       case Delivered => m'.status == Sent && m'.approved == 1 && m'.sentAt == Some(at) && m'.scheduledAt.None?
       case NotDelivered(error) =>
         if RefusedContent(error) then m'.status == Failed && m'.lastError == Some(Provider(error))
         else if m.attempts + 1 >= cfg.maxAttempts then m'.status == Draft && m'.approved == 0 && m'.scheduledAt.None?
         else m'.status == Scheduled && m'.approved == 1 && m'.scheduledAt == Some(at + cfg.retryDelay)
              && m'.lastError == Some(Provider(error))
  }

  lemma SentIsAnswered(cfg: Config, claimed: Table, t': Table, r: Round, k: nat, m: Message)
    requires k < |r.ids| && r.ids[k] in claimed && r.ids[k] in t' && SentAs(cfg, claimed, t', r, k)
    requires claimed[r.ids[k]] == ClaimedRow(m, r.now) && Ready(cfg, claimed[r.ids[k]], r.org)
    ensures AnsweredAs(cfg, m, t'[r.ids[k]], r.answer(k), r.clock(k))
  {
    var id := r.ids[k];
    SendingUsesWork(cfg, claimed, id, r.org, r.actor, r.clock(k), r.answer(k));
    hide SendOne;
    if r.answer(k).NotDelivered? {
      RefusedContentIsBlock(r.answer(k).error);
      hide SafetyContentBlock, RefusedContent;
    }
  }

  /** The number reported as sent is the number of delivered answers. */
  lemma {:induction false} DeliveredCountMeans(answer: nat -> Outcome, n: nat)
    ensures DeliveredCount(answer, n) == |set k: nat | k < n && answer(k) == Delivered|
  {
    var after: set<int> := set k: nat | k < n && answer(k) == Delivered;
    if n == 0 {
      assert after == {};
    } else {
      DeliveredCountMeans(answer, n - 1);
      var before: set<int> := set k: nat | k < n - 1 && answer(k) == Delivered;
      OneMore(before, after, n - 1, answer(n - 1) == Delivered);
    }
  }
}

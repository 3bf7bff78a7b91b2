/** The webhook deduplicator of email_monitor/webhook_utils.py. Instants are in microseconds. */
module WebhookDedup {
  import opened Common

  const MAX_EVENT_AGE := 3_600_000_000

  /** An event that was let through. */
  datatype Acceptance = Acceptance(event: string, at: int)

  /** The event was let through within the last hour. */
  ghost predicate AcceptedSince(history: seq<Acceptance>, event: string, cutoff: int) {
    exists i :: 0 <= i < |history| && history[i].event == event && history[i].at >= cutoff
  }

  /** Two acceptances of one event are more than an hour apart. */
  ghost predicate Spaced(history: seq<Acceptance>) {
    forall i, j :: 0 <= i < j < |history| && history[i].event == history[j].event ==> history[j].at - history[i].at > MAX_EVENT_AGE
  }

  ghost predicate Until(history: seq<Acceptance>, now: int) { forall i :: 0 <= i < |history| ==> history[i].at <= now }

  /** The table holds acceptances of the history, and every one that is not older than the cutoff. */
  ghost predicate Remembers(processed: map<string, int>, history: seq<Acceptance>, cutoff: int) {
    && (forall event :: event in processed ==> Acceptance(event, processed[event]) in history)
    && (forall i :: 0 <= i < |history| && history[i].at >= cutoff ==>
          history[i].event in processed && processed[history[i].event] >= history[i].at)
  }

  /** Looking an event up in a table cleaned at the cutoff is searching the full history. */
  lemma LookupIsSearch(processed: map<string, int>, history: seq<Acceptance>, cutoff: int, event: string)
    requires Remembers(processed, history, cutoff) && (event in processed ==> processed[event] >= cutoff)
    ensures event in processed <==> AcceptedSince(history, event, cutoff)
  {
    if event in processed {
      var i :| 0 <= i < |history| && history[i] == Acceptance(event, processed[event]);
    }
  }

  lemma WithinTheHour(history: seq<Acceptance>, event: string, now: int)
    ensures AcceptedSince(history, event, now - MAX_EVENT_AGE)
            <==> exists i :: 0 <= i < |history| && history[i].event == event && now - history[i].at <= 60 * 60 * 1_000_000
  {
    if i :| 0 <= i < |history| && history[i].event == event && now - history[i].at <= 60 * 60 * 1_000_000 {
      assert history[i].at >= now - MAX_EVENT_AGE;
    }
  }

  /** The table without the entries before the cutoff. */
  ghost predicate Cleaned(processed: map<string, int>, cutoff: int, processed': map<string, int>) {
    forall event :: if event in processed && processed[event] >= cutoff
                    then event in processed' && processed'[event] == processed[event]
                    else event !in processed'
  }

  lemma CleaningRemembers(processed: map<string, int>, history: seq<Acceptance>, before: int, cutoff: int, processed': map<string, int>)
    requires Remembers(processed, history, before) && before <= cutoff && Cleaned(processed, cutoff, processed')
    ensures Remembers(processed', history, cutoff)
    ensures forall event :: event in processed' ==> processed'[event] >= cutoff
  {
  }

  lemma AcceptingRemembers(processed: map<string, int>, history: seq<Acceptance>, cutoff: int, event: string, at: int)
    requires Remembers(processed, history, cutoff) && Until(history, at)
    ensures Remembers(processed[event := at], history + [Acceptance(event, at)], cutoff)
  {
    var more := history + [Acceptance(event, at)];
    var after := processed[event := at];
    forall e | e in after
      ensures Acceptance(e, after[e]) in more
    {
      if e == event {
        assert more[|history|] == Acceptance(event, at);
      } else {
        var i :| 0 <= i < |history| && history[i] == Acceptance(e, processed[e]);
        assert more[i] == history[i];
      }
    }
  }

  lemma AcceptingKeepsSpaced(history: seq<Acceptance>, event: string, now: int, at: int)
    requires Spaced(history) && now <= at && !AcceptedSince(history, event, now - MAX_EVENT_AGE)
    ensures Spaced(history + [Acceptance(event, at)])
  {
  }

  lemma AcceptingUntil(history: seq<Acceptance>, now: int, event: string, at: int)
    requires Until(history, now) && now <= at
    ensures Until(history, at) && Until(history + [Acceptance(event, at)], at)
  {
  }

  lemma LaterRemembers(processed: map<string, int>, history: seq<Acceptance>, cutoff: int, later: int)
    requires Remembers(processed, history, cutoff) && cutoff <= later
    ensures Remembers(processed, history, later)
  {
  }

  class Deduplicator {
    var processed: map<string, int>
    /** Every event ever let through, and the last clock reading. */
    ghost var history: seq<Acceptance>
    ghost var clock: int

    ghost predicate Valid()
      reads this
    {
      Remembers(processed, history, clock - MAX_EVENT_AGE) && Spaced(history) && Until(history, clock)
    }

    constructor ()
      ensures Valid() && history == []
    {
      processed := map[];
      history := [];
    }

    /** Remove the events processed before the cutoff. */
    method CleanupOldEvents(now: int)
      requires Valid() && clock <= now
      modifies this`processed, this`clock
      ensures Valid() && clock == now
      ensures Cleaned(old(processed), now - MAX_EVENT_AGE, processed)
      ensures forall event :: event in processed ==> processed[event] >= now - MAX_EVENT_AGE
    {
      hide Remembers, Spaced;
      var cutoff := now - MAX_EVENT_AGE;
      var before := processed;
      var expired := set event | event in before && before[event] < cutoff;
      while expired != {}
        invariant clock == old(clock)
        invariant forall event :: event in processed ==> event in before && processed[event] == before[event]
        invariant forall event :: event in expired ==> event in processed && before[event] < cutoff
        invariant forall event :: event in before ==> event in processed || before[event] < cutoff
        invariant forall event :: event in processed && before[event] < cutoff ==> event in expired
        decreases |expired|
      {
        var event :| event in expired;
        processed := processed - {event};
        expired := expired - {event};
      }
      CleaningRemembers(before, history, clock - MAX_EVENT_AGE, cutoff, processed);
      clock := now;
    }

    /** An event is a duplicate exactly when the full history holds an acceptance of it within the last
        hour; otherwise it is let through and recorded. `at` is the second clock reading. */
    method IsDuplicateEvent(event: string, enabled: bool, now: int, at: int) returns (duplicate: bool)
      requires Valid() && clock <= now <= at
      modifies this
      ensures Valid()
      ensures !enabled ==> !duplicate && history == old(history) && processed == old(processed)
      ensures enabled ==> (duplicate <==> AcceptedSince(old(history), event, now - MAX_EVENT_AGE))
      ensures enabled ==>
                (duplicate <==> exists i :: 0 <= i < |old(history)| && old(history)[i].event == event
                                            && now - old(history)[i].at <= 60 * 60 * 1_000_000)
      ensures enabled && duplicate ==> history == old(history)
      ensures enabled && !duplicate ==> history == old(history) + [Acceptance(event, at)]
    {
      if !enabled {
        return false;
      }
      CleanupOldEvents(now);
      hide Remembers, Spaced, AcceptedSince, Cleaned, Until;
      LookupIsSearch(processed, history, now - MAX_EVENT_AGE, event);
      WithinTheHour(history, event, now);
      if event in processed {
        return true;
      }
      AcceptingUntil(history, now, event, at);
      AcceptingRemembers(processed, history, now - MAX_EVENT_AGE, event, at);
      AcceptingKeepsSpaced(history, event, now, at);
      processed := processed[event := at];
      history := history + [Acceptance(event, at)];
      LaterRemembers(processed, history, now - MAX_EVENT_AGE, at - MAX_EVENT_AGE);
      clock := at;
      return false;
    }
  }
}

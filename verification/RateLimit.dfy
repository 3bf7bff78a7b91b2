/** The sliding-window rate limiter of main.py: pruned buckets that answer as the full history would. */
module RateLimit {
  import opened Common
  import Subjects

  /** A client and a path. */
  type Key = (string, string)

  const WINDOW: real := 60.0

  /** `_client_ip`: the first forwarded address, or the peer. */
  function ClientIp(forwarded: Option<string>, host: Option<string>): string {
    if forwarded.Some? && forwarded.value != "" then Subjects.Strip(BeforeComma(forwarded.value))
    else if host.Some? then host.value
    else "unknown"
  }

  function BeforeComma(s: string): string {
    if s == "" || s[0] == ',' then "" else [s[0]] + BeforeComma(s[1..])
  }

  /** The instants not before the cutoff. */
  function Recent(times: seq<real>, cutoff: real): (r: seq<real>)
    ensures |r| <= |times|
  {
    if times == [] then []
    else Recent(times[..|times| - 1], cutoff) + if times[|times| - 1] >= cutoff then [times[|times| - 1]] else []
  }

  lemma {:induction false} RecentAppend(times: seq<real>, t: real, cutoff: real)
    ensures Recent(times + [t], cutoff) == Recent(times, cutoff) + if t >= cutoff then [t] else []
  {
    assert (times + [t])[..|times|] == times;
  }

  /** Pruning with an earlier cutoff first changes nothing. */
  lemma {:induction false} RecentOfRecent(times: seq<real>, early: real, cutoff: real)
    requires early <= cutoff
    ensures Recent(Recent(times, early), cutoff) == Recent(times, cutoff)
  {
    if times != [] {
      var before, last := times[..|times| - 1], times[|times| - 1];
      RecentOfRecent(before, early, cutoff);
      if last >= early {
        RecentAppend(Recent(before, early), last, cutoff);
      } else {
        assert Recent(before, early) + [] == Recent(before, early);
      }
    }
  }

  /** The verdict the full history of accepted requests gives. */
  predicate Limited(accepted: seq<real>, now: real, limit: int) {
    |Recent(accepted, now - WINDOW)| >= limit
  }

  /** The requests of one key that were accepted: in time order, and each was within the limit. */
  ghost predicate IsHistory(accepted: seq<real>, limit: int) {
    && (forall i, j :: 0 <= i < j < |accepted| ==> accepted[i] <= accepted[j])
    && (forall i :: 0 <= i < |accepted| ==> !Limited(accepted[..i], accepted[i], limit))
  }

  /** The accepted requests of a closed window of a minute. */
  function InWindow(accepted: seq<real>, from: real): (n: nat)
    ensures n <= |accepted|
  {
    if accepted == [] then 0
    else
      var last := accepted[|accepted| - 1];
      InWindow(accepted[..|accepted| - 1], from) + if from <= last <= from + WINDOW then 1 else 0
  }

  lemma {:induction false} WindowIsRecent(accepted: seq<real>, from: real, cutoff: real)
    requires cutoff <= from
    ensures InWindow(accepted, from) <= |Recent(accepted, cutoff)|
  {
    if accepted != [] {
      WindowIsRecent(accepted[..|accepted| - 1], from, cutoff);
    }
  }

  /** Every closed window of a minute holds at most `limit` accepted requests. */
  lemma {:induction false} WindowsHoldAtMostLimit(accepted: seq<real>, limit: int, from: real)
    requires IsHistory(accepted, limit)
    ensures InWindow(accepted, from) <= Max(limit, 0)
  {
    if accepted != [] {
      var n := |accepted| - 1;
      var before, last := accepted[..n], accepted[n];
      assert IsHistory(before, limit) by {
        assert forall i :: 0 <= i < n ==> before[..i] == accepted[..i];
      }
      if from <= last <= from + WINDOW {
        assert !Limited(accepted[..n], accepted[n], limit);
        WindowIsRecent(before, from, last - WINDOW);
      } else {
        WindowsHoldAtMostLimit(before, limit, from);
      }
    }
  }

  /** Before the present, the last minute is a window. */
  lemma {:induction false} RecentIsWindow(accepted: seq<real>, now: real)
    requires Until(accepted, now)
    ensures |Recent(accepted, now - WINDOW)| == InWindow(accepted, now - WINDOW)
  {
    if accepted != [] {
      var n := |accepted| - 1;
      RecentIsWindow(accepted[..n], now);
    }
  }

  /** A rejection means that exactly `limit` requests were accepted in the last minute. */
  lemma RejectionMeansFull(accepted: seq<real>, limit: nat, now: real)
    requires IsHistory(accepted, limit) && Until(accepted, now)
    ensures Limited(accepted, now, limit) <==> InWindow(accepted, now - WINDOW) == limit
  {
    RecentIsWindow(accepted, now);
    WindowsHoldAtMostLimit(accepted, limit, now - WINDOW);
  }

  ghost predicate Until(times: seq<real>, now: real) { forall i :: 0 <= i < |times| ==> times[i] <= now }

  lemma AcceptingKeepsHistory(accepted: seq<real>, limit: int, now: real)
    requires IsHistory(accepted, limit) && Until(accepted, now)
    requires !Limited(accepted, now, limit)
    ensures IsHistory(accepted + [now], limit)
  {
    var more := accepted + [now];
    assert forall i :: 0 <= i < |accepted| ==> more[..i] == accepted[..i];
    assert more[..|accepted|] == accepted;
  }

  /** The bucket answers like the history for every cutoff from `from` on. */
  ghost predicate Agrees(bucket: seq<real>, history: seq<real>, from: real) {
    forall cutoff :: cutoff >= from ==> Recent(bucket, cutoff) == Recent(history, cutoff)
  }

  lemma PrunedAgrees(bucket: seq<real>, history: seq<real>, from: real, cutoff: real)
    requires Agrees(bucket, history, from) && from <= cutoff
    ensures Agrees(Recent(bucket, cutoff), history, cutoff)
  {
    forall c | c >= cutoff
      ensures Recent(Recent(bucket, cutoff), c) == Recent(history, c)
    {
      RecentOfRecent(bucket, cutoff, c);
    }
  }

  lemma AppendedAgrees(bucket: seq<real>, history: seq<real>, now: real, from: real)
    requires Agrees(bucket, history, from)
    ensures Agrees(bucket + [now], history + [now], from)
  {
    forall c | c >= from
      ensures Recent(bucket + [now], c) == Recent(history + [now], c)
    {
      RecentAppend(bucket, now, c);
      RecentAppend(history, now, c);
    }
  }

  class RateLimiter {
    const limit: int
    var buckets: map<Key, seq<real>>
    /** Everything ever accepted, and the last instant the limiter was asked. */
    ghost var accepted: map<Key, seq<real>>
    ghost var clock: real

    ghost function History(key: Key): seq<real>
      reads this
    {
      if key in accepted then accepted[key] else []
    }

    function Bucket(key: Key): seq<real>
      reads this
    {
      if key in buckets then buckets[key] else []
    }

    /** A bucket may have lost instants, but none of the last minute. */
    ghost predicate KeyValid(key: Key)
      reads this
    {
      && IsHistory(History(key), limit) && Until(History(key), clock)
      && Agrees(Bucket(key), History(key), clock - WINDOW)
    }

    ghost predicate Valid()
      reads this
    {
      forall key :: KeyValid(key)
    }

    constructor (limit: int)
      ensures Valid() && this.limit == limit && accepted == map[]
    {
      this.limit := limit;
      buckets := map[];
      accepted := map[];
    }

    /** The pruned bucket answers exactly as the full history of accepted requests does; an accepted request
        joins the history of its key, a rejected one does not, and no other key is touched. */
    method IsRateLimited(forwarded: Option<string>, host: Option<string>, path: string, now: real) returns (limited: bool)
      requires Valid() && clock <= now
      modifies this
      ensures Valid()
      ensures "/health" <= path ==> !limited && buckets == old(buckets) && accepted == old(accepted)
      ensures !("/health" <= path) ==>
                var key := (ClientIp(forwarded, host), path);
                && limited == Limited(old(History(key)), now, limit)
                && accepted == (if limited then old(accepted) else old(accepted)[key := old(History(key)) + [now]])
                && key in buckets && buckets == old(buckets)[key := buckets[key]]
                && clock == now
    {
      hide IsHistory, Until, Agrees, Recent, ClientIp;
      if "/health" <= path {
        return false;
      }
      var key := (ClientIp(forwarded, host), path);
      var cutoff := now - WINDOW;
      var bucket := Recent(Bucket(key), cutoff);
      ghost var history := History(key);
      assert KeyValid(key);
      SameAnswer(Bucket(key), history, clock - WINDOW, cutoff);
      LaterAllAgree(now);
      PrunedAgrees(Bucket(key), history, clock - WINDOW, cutoff);
      UntilLater(history, clock, now);
      ghost var more := history + [now];
      if |bucket| >= limit {
        buckets := buckets[key := bucket];
        limited := true;
      } else {
        AcceptingKeepsHistory(history, limit, now);
        AppendedAgrees(bucket, history, now, cutoff);
        AppendedUntil(history, now);
        buckets := buckets[key := bucket + [now]];
        accepted := accepted[key := more];
        limited := false;
      }
      clock := now;
      forall other: Key
        ensures KeyValid(other)
      {
        if other != key {
          assert old(KeyValid(other));
          assert History(other) == old(History(other)) && Bucket(other) == old(Bucket(other));
        }
      }
    }

    /** What is known of every key now is known at a later instant. */
    lemma LaterAllAgree(now: real)
      requires Valid() && clock <= now
      ensures forall key :: Until(History(key), now) && Agrees(Bucket(key), History(key), now - WINDOW)
    {
      forall key: Key
        ensures Until(History(key), now) && Agrees(Bucket(key), History(key), now - WINDOW)
      {
        assert KeyValid(key);
      }
    }
  }

  lemma SameAnswer(bucket: seq<real>, history: seq<real>, from: real, cutoff: real)
    requires Agrees(bucket, history, from) && from <= cutoff
    ensures Recent(bucket, cutoff) == Recent(history, cutoff)
  {
  }

  lemma UntilLater(times: seq<real>, before: real, now: real)
    requires Until(times, before) && before <= now
    ensures Until(times, now)
  {
  }

  lemma AppendedUntil(times: seq<real>, now: real)
    requires Until(times, now)
    ensures Until(times + [now], now)
  {
  }
}

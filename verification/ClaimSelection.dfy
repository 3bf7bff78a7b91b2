/** The claim query: ORDER BY scheduled_send_at ASC LIMIT n over the due rows. */
module ClaimSelection {
  import opened Common
  import opened Messages
  import opened Drafts

  /** The database may visit the rows in any order, each once. */
  ghost predicate IsScan(t: Table, scan: seq<int>) {
    Distinct(scan) && forall id :: id in t ==> id in scan
  }

  ghost function DueIds(cfg: Config, t: Table, now: int, org: Option<int>): set<int> {
    set id | id in t && Due(cfg, t[id], now, org)
  }

  function ScheduledTime(t: Table, id: int): int {
    if id in t && t[id].scheduledAt.Some? then t[id].scheduledAt.value else 0
  }

  ghost predicate SortedByTime(t: Table, ids: seq<int>) {
    forall i, j :: 0 <= i < j < |ids| ==> ScheduledTime(t, ids[i]) <= ScheduledTime(t, ids[j])
  }

  /** What is claimed: as many due rows as the limit allows, each once, and no due row left out is scheduled
      strictly earlier than one taken. */
  ghost predicate EarliestDue(cfg: Config, t: Table, ids: seq<int>, now: int, limit: nat, org: Option<int>) {
    && |ids| == Min(limit, |DueIds(cfg, t, now, org)|)
    && Distinct(ids)
    && (forall id :: id in ids ==> id in DueIds(cfg, t, now, org))
    && (forall id, other :: id in ids && other in DueIds(cfg, t, now, org) && other !in ids ==>
          ScheduledTime(t, id) <= ScheduledTime(t, other))
  }

  // ---- One way to answer the query -----------------------------------------------------------

  function DueInOrderOf(cfg: Config, t: Table, scan: seq<int>, now: int, org: Option<int>): seq<int> {
    if scan == [] then []
    else if scan[0] in t && Due(cfg, t[scan[0]], now, org) then [scan[0]] + DueInOrderOf(cfg, t, scan[1..], now, org)
    else DueInOrderOf(cfg, t, scan[1..], now, org)
  }

  function InsertByTime(t: Table, id: int, ids: seq<int>): seq<int> {
    if ids == [] || ScheduledTime(t, id) <= ScheduledTime(t, ids[0]) then [id] + ids
    else [ids[0]] + InsertByTime(t, id, ids[1..])
  }

  function SortByTime(t: Table, ids: seq<int>): seq<int> {
    if ids == [] then [] else InsertByTime(t, ids[0], SortByTime(t, ids[1..]))
  }

  function DueQuery(cfg: Config, t: Table, scan: seq<int>, now: int, limit: nat, org: Option<int>): seq<int> {
    var due := SortByTime(t, DueInOrderOf(cfg, t, scan, now, org));
    due[..Min(limit, |due|)]
  }

  lemma {:induction false} FilteringKeepsDue(cfg: Config, t: Table, scan: seq<int>, now: int, org: Option<int>)
    requires Distinct(scan)
    ensures var due := DueInOrderOf(cfg, t, scan, now, org);
            && Distinct(due)
            && forall id :: id in due <==> id in scan && id in t && Due(cfg, t[id], now, org)
  {
    if scan != [] {
      FilteringKeepsDue(cfg, t, scan[1..], now, org);
      assert scan == [scan[0]] + scan[1..];
    }
  }

  lemma PrependingSorts(t: Table, id: int, ids: seq<int>)
    requires SortedByTime(t, ids) && Distinct(ids) && id !in ids
    requires forall x :: x in ids ==> ScheduledTime(t, id) <= ScheduledTime(t, x)
    ensures SortedByTime(t, [id] + ids) && Distinct([id] + ids)
  {
    assert forall k :: 0 <= k < |ids| ==> ids[k] in ids;
  }

  lemma {:induction false} InsertingSorts(t: Table, id: int, ids: seq<int>)
    requires SortedByTime(t, ids) && Distinct(ids) && id !in ids
    ensures var all := InsertByTime(t, id, ids);
            && SortedByTime(t, all) && Distinct(all) && |all| == |ids| + 1
            && forall x :: x in all <==> x == id || x in ids
  {
    assert ids != [] ==> ids == [ids[0]] + ids[1..];
    if ids == [] || ScheduledTime(t, id) <= ScheduledTime(t, ids[0]) {
      PrependingSorts(t, id, ids);
    } else {
      InsertingSorts(t, id, ids[1..]);
      PrependingSorts(t, ids[0], InsertByTime(t, id, ids[1..]));
    }
  }

  lemma {:induction false} SortingSorts(t: Table, ids: seq<int>)
    requires Distinct(ids)
    ensures var all := SortByTime(t, ids);
            && SortedByTime(t, all) && Distinct(all) && |all| == |ids|
            && forall x :: x in all <==> x in ids
  {
    if ids != [] {
      SortingSorts(t, ids[1..]);
      assert ids == [ids[0]] + ids[1..];
      InsertingSorts(t, ids[0], SortByTime(t, ids[1..]));
    }
  }

  lemma {:induction false} DistinctCount(ids: seq<int>, s: set<int>)
    requires Distinct(ids) && forall x :: x in s <==> x in ids
    ensures |s| == |ids|
  {
    var members := set x | x in ids;
    assert forall x :: x in s <==> x in members;
    if ids != [] {
      assert ids == [ids[0]] + ids[1..];
      DistinctCount(ids[1..], s - {ids[0]});
    }
  }

  /** The first `n` of ids in order are distinct, in order, and none left out is earlier. */
  lemma CuttingKeepsEarliest(t: Table, due: seq<int>, n: nat)
    requires n <= |due| && Distinct(due) && SortedByTime(t, due)
    ensures Distinct(due[..n]) && SortedByTime(t, due[..n])
    ensures forall id, other :: id in due[..n] && other in due && other !in due[..n] ==>
              ScheduledTime(t, id) <= ScheduledTime(t, other)
  {
    hide ScheduledTime;
    assert due == due[..n] + due[n..];
    forall id, other | id in due[..n] && other in due && other !in due[..n]
      ensures ScheduledTime(t, id) <= ScheduledTime(t, other)
    {
      var i :| 0 <= i < n && due[i] == id;
      var j :| 0 <= j < |due[n..]| && due[n..][j] == other;
      assert due[n + j] == other;
    }
  }

  /** Whatever order the table is visited in, sorting the due rows and cutting at the limit answers
      the claim query. */
  lemma DueQueryAnswers(cfg: Config, t: Table, scan: seq<int>, now: int, limit: nat, org: Option<int>)
    requires IsScan(t, scan)
    ensures EarliestDue(cfg, t, DueQuery(cfg, t, scan, now, limit, org), now, limit, org)
    ensures SortedByTime(t, DueQuery(cfg, t, scan, now, limit, org))
  {
    hide ScheduledTime, Due, SortByTime, DueInOrderOf;
    var filtered := DueInOrderOf(cfg, t, scan, now, org);
    FilteringKeepsDue(cfg, t, scan, now, org);
    SortingSorts(t, filtered);
    var due := SortByTime(t, filtered);
    DistinctCount(due, DueIds(cfg, t, now, org));
    CuttingKeepsEarliest(t, due, Min(limit, |due|));
  }

  /** The chosen ids in the order in which the updated rows are returned. */
  function InReturnOrder(returning: seq<int>, chosen: set<int>): seq<int> {
    if returning == [] then []
    else (if returning[0] in chosen then [returning[0]] else []) + InReturnOrder(returning[1..], chosen)
  }

  lemma {:induction false} ReturnedIsChosen(returning: seq<int>, chosen: set<int>)
    requires Distinct(returning)
    ensures Distinct(InReturnOrder(returning, chosen))
    ensures forall id :: id in InReturnOrder(returning, chosen) <==> id in chosen && id in returning
  {
    if returning != [] {
      ReturnedIsChosen(returning[1..], chosen);
      assert returning == [returning[0]] + returning[1..];
    }
  }

  /** The order in which ids are returned does not matter to what is claimed. */
  lemma AnyOrderIsClaimed(cfg: Config, t: Table, ids: seq<int>, returning: seq<int>, now: int, limit: nat, org: Option<int>)
    requires EarliestDue(cfg, t, ids, now, limit, org) && IsScan(t, returning)
    ensures EarliestDue(cfg, t, InReturnOrder(returning, set id | id in ids), now, limit, org)
    ensures forall id :: id in InReturnOrder(returning, set id | id in ids) <==> id in ids
  {
    hide ScheduledTime, Due;
    var chosen := set id | id in ids;
    ReturnedIsChosen(returning, chosen);
    DistinctCount(ids, chosen);
    DistinctCount(InReturnOrder(returning, chosen), chosen);
  }

  lemma ChosenAreWaiting(cfg: Config, t: Table, ids: seq<int>, now: int, limit: nat, org: Option<int>)
    requires EarliestDue(cfg, t, ids, now, limit, org)
    ensures Distinct(ids) && forall id :: id in ids ==> id in t && t[id].status == Scheduled && t[id].approved == 1
  {
  }

  lemma ClaimOneMore(t: Table, ids: set<int>, id: int, now: int)
    requires id in t && id !in ids
    ensures ClaimRows(t, ids, now)[id := ClaimedRow(t[id], now)] == ClaimRows(t, ids + {id}, now)
    ensures id in ClaimRows(t, ids, now) && ClaimRows(t, ids, now)[id] == t[id]
  {
  }

  lemma NothingClaimed(t: Table, now: int)
    ensures ClaimRows(t, {}, now) == t
  {
  }

  lemma NothingLocked(t: Table)
    ensures t - {} == t
  {
  }
}

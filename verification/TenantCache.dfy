/** The membership cache of services/tenant_service.py: what a cached answer is worth. */
module TenantCache {
  import opened Common

  datatype Org = Org(name: string, slug: string, timezone: string)

  /** An organization_users row. */
  datatype OrgUser = OrgUser(role: string, status: string)

  /** `users` is keyed by organization and user. */
  datatype Tables = Tables(orgs: map<int, Org>, users: map<(int, int), OrgUser>, nextOrg: int)

  datatype Membership = Membership(org: int, user: int, role: string, status: string, orgName: string, orgSlug: string)

  /** The uncached query: the active membership joined with its organization. */
  function Query(tables: Tables, user: int, org: int): Option<Membership> {
    if (org, user) in tables.users && org in tables.orgs && tables.users[(org, user)].status == "ACTIVE" then
      Some(Membership(org, user, tables.users[(org, user)].role, "ACTIVE", tables.orgs[org].name, tables.orgs[org].slug))
    else None
  }

  datatype Entry = Entry(expires: int, value: Option<Membership>)

  /** Keyed by user and organization. */
  type Cache = map<(int, int), Entry>

  /** `_get_cache`: an expired entry is dropped; a cached absence counts as a miss. */
  function Lookup(cache: Cache, key: (int, int), now: int, ttl: int): (Cache, Option<Membership>) {
    if ttl <= 0 || key !in cache then (cache, None)
    else if cache[key].expires <= now then (cache - {key}, None)
    else (cache, cache[key].value)
  }

  /** `_set_cache` */
  function Store(cache: Cache, key: (int, int), now: int, ttl: int, value: Option<Membership>): Cache {
    if ttl <= 0 then cache else cache[key := Entry(now + ttl, value)]
  }

  /** `get_membership` with its two clock readings. */
  function Get(cache: Cache, tables: Tables, user: int, org: int, now: int, setAt: int, ttl: int): (Cache, Option<Membership>) {
    var found := Lookup(cache, (user, org), now, ttl);
    if found.1.Some? then found
    else
      var answer := Query(tables, user, org);
      (Store(found.0, (user, org), setAt, ttl, answer), answer)
  }

  // ---- Runs of one process ---------------------------------------------------------------------------

  datatype State = State(tables: Tables, cache: Cache)

  /** The service's own writes clear the cache; another process's writes do not reach it. */
  datatype Event = Asked(user: int, org: int, now: int, setAt: int) | OwnWrite(tables: Tables) | ForeignWrite(tables: Tables)

  function Step(s: State, e: Event, ttl: int): State {
    match e
    case Asked(user, org, now, setAt) => s.(cache := Get(s.cache, s.tables, user, org, now, setAt, ttl).0)
    case OwnWrite(tables) => State(tables, map[])
    case ForeignWrite(tables) => s.(tables := tables)
  }

  function AnswerTo(s: State, e: Event, ttl: int): Option<Membership>
    requires e.Asked?
  {
    Get(s.cache, s.tables, e.user, e.org, e.now, e.setAt, ttl).1
  }

  ghost predicate IsRun(states: seq<State>, events: seq<Event>, ttl: int) {
    && |states| == |events| + 1 && states[0].cache == map[]
    && forall k :: 0 <= k < |events| ==> states[k + 1] == Step(states[k], events[k], ttl)
  }

  /** Every entry is what the query would answer now. */
  ghost predicate Fresh(cache: Cache, tables: Tables) {
    forall key :: key in cache ==> cache[key].value == Query(tables, key.0, key.1)
  }

  lemma GetKeepsFresh(cache: Cache, tables: Tables, user: int, org: int, now: int, setAt: int, ttl: int)
    requires Fresh(cache, tables)
    ensures Get(cache, tables, user, org, now, setAt, ttl).1 == Query(tables, user, org)
    ensures Fresh(Get(cache, tables, user, org, now, setAt, ttl).0, tables)
  {
  }

  lemma {:induction false} OwnWritesKeepFresh(states: seq<State>, events: seq<Event>, ttl: int, k: nat)
    requires IsRun(states, events, ttl) && k < |states|
    requires forall i :: 0 <= i < k ==> !events[i].ForeignWrite?
    ensures Fresh(states[k].cache, states[k].tables)
  {
    if k > 0 {
      OwnWritesKeepFresh(states, events, ttl, k - 1);
      var s, e := states[k - 1], events[k - 1];
      if e.Asked? {
        GetKeepsFresh(s.cache, s.tables, e.user, e.org, e.now, e.setAt, ttl);
      }
    }
  }

  /** In a run of the service's own reads and writes the cache is invisible: every answer is the uncached
      query's, whatever the clock and the lifetime. */
  lemma CacheIsTransparent(states: seq<State>, events: seq<Event>, ttl: int, k: nat)
    requires IsRun(states, events, ttl) && k < |events| && events[k].Asked?
    requires forall i :: 0 <= i < k ==> !events[i].ForeignWrite?
    ensures AnswerTo(states[k], events[k], ttl) == Query(states[k].tables, events[k].user, events[k].org)
  {
    OwnWritesKeepFresh(states, events, ttl, k);
    var s, e := states[k], events[k];
    GetKeepsFresh(s.cache, s.tables, e.user, e.org, e.now, e.setAt, ttl);
  }

  /** Event `j` asked for this membership and stored the answer until `expires`. */
  ghost predicate StoredAt(states: seq<State>, events: seq<Event>, ttl: int, j: nat, key: (int, int), entry: Entry)
    requires j < |events| && j < |states|
  {
    && events[j].Asked? && events[j].user == key.0 && events[j].org == key.1
    && entry == Entry(events[j].setAt + ttl, Query(states[j].tables, key.0, key.1))
  }

  ghost predicate Origin(states: seq<State>, events: seq<Event>, ttl: int, k: nat, key: (int, int), entry: Entry)
    requires k <= |events| && k <= |states|
  {
    exists j: nat :: j < k && StoredAt(states, events, ttl, j, key, entry)
  }

  lemma {:induction false} EntriesHaveOrigins(states: seq<State>, events: seq<Event>, ttl: int, k: nat)
    requires IsRun(states, events, ttl) && k < |states|
    ensures forall key :: key in states[k].cache ==> Origin(states, events, ttl, k, key, states[k].cache[key])
  {
    if k > 0 {
      EntriesHaveOrigins(states, events, ttl, k - 1);
      var s, e := states[k - 1], events[k - 1];
      forall key | key in states[k].cache
        ensures Origin(states, events, ttl, k, key, states[k].cache[key])
      {
        if key in s.cache && states[k].cache[key] == s.cache[key] {
          assert Origin(states, events, ttl, k - 1, key, s.cache[key]);
          var j: nat :| j < k - 1 && StoredAt(states, events, ttl, j, key, s.cache[key]);
          assert StoredAt(states, events, ttl, j, key, states[k].cache[key]);
        } else {
          assert StoredAt(states, events, ttl, k - 1, key, states[k].cache[key]);
        }
      }
    }
  }

  /** With other processes writing too, an answer is never older than the lifetime: it is what the query
      answered at the asking itself, or at an earlier asking stored less than `ttl` before. */
  lemma StalenessIsBounded(states: seq<State>, events: seq<Event>, ttl: int, k: nat) returns (j: nat)
    requires IsRun(states, events, ttl) && k < |events| && events[k].Asked?
    ensures j <= k && events[j].Asked? && events[j].user == events[k].user && events[j].org == events[k].org
    ensures AnswerTo(states[k], events[k], ttl) == Query(states[j].tables, events[k].user, events[k].org)
    ensures j == k || events[k].now - events[j].setAt < ttl
  {
    EntriesHaveOrigins(states, events, ttl, k);
    var s, e := states[k], events[k];
    var key := (e.user, e.org);
    if Lookup(s.cache, key, e.now, ttl).1.Some? {
      assert Origin(states, events, ttl, k, key, s.cache[key]);
      j :| j < k && StoredAt(states, events, ttl, j, key, s.cache[key]);
    } else {
      j := k;
    }
  }
}

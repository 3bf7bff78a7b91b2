/** Who may administer an organization, and which requests are let through, in terms of the tables and histories. */
module AccessMeaning {
  import opened Common
  import TenantCache
  import opened TenantService
  import opened RateLimit
  import Subjects

  // ---- Memberships -----------------------------------------------------------------------------------

  /** The user has an active membership of the organization with this role, and the organization exists. */
  ghost predicate ActiveAs(tables: TenantCache.Tables, user: int, org: int, role: string) {
    && org in tables.orgs && (org, user) in tables.users
    && tables.users[(org, user)].status == "ACTIVE" && tables.users[(org, user)].role == role
  }

  lemma QueryMeans(tables: TenantCache.Tables, user: int, org: int)
    ensures var found := TenantCache.Query(tables, user, org);
            && (found.Some? <==> exists role :: ActiveAs(tables, user, org, role))
            && (found.Some? ==>
                  && ActiveAs(tables, user, org, found.value.role)
                  && found.value.org == org && found.value.user == user && found.value.status == "ACTIVE"
                  && found.value.orgName == tables.orgs[org].name && found.value.orgSlug == tables.orgs[org].slug)
  {
    if TenantCache.Query(tables, user, org).Some? {
      assert ActiveAs(tables, user, org, tables.users[(org, user)].role);
    }
  }

  /** An organization is administered by the system owners and by its own active administrators, by nobody else. */
  lemma MayAdministerMeans(tables: TenantCache.Tables, actor: Actor, org: int)
    ensures MayAdminister(tables, actor, org) <==> actor.systemOwner || ActiveAs(tables, actor.user, org, "org_admin")
  {
    QueryMeans(tables, actor.user, org);
  }

  lemma RolesMean(role: string, status: string)
    ensures role in ORG_ROLES <==> role == "org_admin" || role == "sales_manager" || role == "sales_user" || role == "viewer"
    ensures status in STATUSES <==> status == "ACTIVE" || status == "INVITED" || status == "DISABLED"
  {
  }

  /** After a membership is written its user is an administrator if and only if that was written and is active; what
      everybody else may do is unchanged. */
  lemma WrittenMembershipDecides(tables: TenantCache.Tables, org: int, user: int, role: string, status: string, actor: Actor, other: int)
    requires org in tables.orgs
    ensures var after := WithUser(tables, org, user, role, status);
            if actor.user == user && other == org
            then MayAdminister(after, actor, other) <==> actor.systemOwner || (role == "org_admin" && status == "ACTIVE")
            else MayAdminister(after, actor, other) <==> MayAdminister(tables, actor, other)
  {
    var after := WithUser(tables, org, user, role, status);
    MayAdministerMeans(after, actor, other);
    MayAdministerMeans(tables, actor, other);
  }

  /** A membership that was found is served from the cache, whatever the tables say, until its lifetime is over; that
      there was none is asked again every time. */
  lemma FoundIsServed(
      cache: TenantCache.Cache, tables: TenantCache.Tables, user: int, org: int, now: int, setAt: int, ttl: int,
      later: TenantCache.Tables, next: int, nextSetAt: int)
    requires ttl > 0
    ensures var (cache', answer) := TenantCache.Get(cache, tables, user, org, now, setAt, ttl);
            var again := TenantCache.Get(cache', later, user, org, next, nextSetAt, ttl).1;
            && ((user, org) !in cache && answer.Some? && next < setAt + ttl ==> again == answer)
            && ((user, org) !in cache && next >= setAt + ttl ==> again == TenantCache.Query(later, user, org))
            && (answer.None? ==> again == TenantCache.Query(later, user, org))
  {
    hide TenantCache.Query;
  }

  // ---- The rate limiter ------------------------------------------------------------------------------

  /** The accepted requests between two instants, both included. */
  ghost function Between(accepted: seq<real>, from: real, until: real): set<int> {
    set i | 0 <= i < |accepted| && from <= accepted[i] <= until
  }

  lemma LastOfSome(accepted: seq<real>, from: real, until: real)
    requires accepted != []
    ensures var n := |accepted| - 1;
            |Between(accepted, from, until)|
            == |Between(accepted[..n], from, until)| + if from <= accepted[n] <= until then 1 else 0
  {
    var n := |accepted| - 1;
    var all, before := Between(accepted, from, until), Between(accepted[..n], from, until);
    if from <= accepted[n] <= until {
      assert forall i :: i in all <==> i in before + {n};
      assert all == before + {n};
    } else {
      assert forall i :: i in all <==> i in before;
      assert all == before;
    }
  }

  lemma NoneBetween(from: real, until: real)
    ensures |Between([], from, until)| == 0
  {
    var none: set<int> := {};
    assert forall i :: i in Between([], from, until) <==> i in none;
    assert Between([], from, until) == none;
  }

  lemma {:induction false} RecentMeans(accepted: seq<real>, cutoff: real, now: real)
    requires Until(accepted, now)
    ensures |Recent(accepted, cutoff)| == |Between(accepted, cutoff, now)|
  {
    if accepted == [] {
      NoneBetween(cutoff, now);
    } else {
      hide Between;
      RecentMeans(accepted[..|accepted| - 1], cutoff, now);
      LastOfSome(accepted, cutoff, now);
    }
  }

  lemma {:induction false} InWindowMeans(accepted: seq<real>, from: real)
    ensures InWindow(accepted, from) == |Between(accepted, from, from + 60.0)|
  {
    if accepted == [] {
      NoneBetween(from, from + 60.0);
    } else {
      hide Between;
      InWindowMeans(accepted[..|accepted| - 1], from);
      LastOfSome(accepted, from, from + 60.0);
    }
  }

  /** A request is rejected if and only if at least `limit` requests of its key were accepted in the sixty seconds
      before it. */
  lemma LimitedMeans(accepted: seq<real>, now: real, limit: int)
    requires Until(accepted, now)
    ensures Limited(accepted, now, limit) <==> |Between(accepted, now - 60.0, now)| >= limit
  {
    RecentMeans(accepted, now - 60.0, now);
  }

  /** Under the limiter no sixty seconds hold more than `limit` accepted requests of a key. */
  lemma AtMostLimitAMinute(accepted: seq<real>, limit: nat, from: real)
    requires IsHistory(accepted, limit)
    ensures |Between(accepted, from, from + 60.0)| <= limit
  {
    InWindowMeans(accepted, from);
    WindowsHoldAtMostLimit(accepted, limit, from);
  }

  lemma {:induction false} BeforeCommaMeans(s: string)
    ensures BeforeComma(s) <= s && ',' !in BeforeComma(s)
    ensures BeforeComma(s) != s ==> s[|BeforeComma(s)|] == ','
  {
    if s != "" && s[0] != ',' {
      BeforeCommaMeans(s[1..]);
    }
  }

  /** A request is counted for its first forwarded address, the text before the first comma; without one, for its peer. */
  lemma ClientIpMeans(forwarded: Option<string>, host: Option<string>)
    ensures forall text :: forwarded == Some(text) && text != "" ==>
              exists n: nat :: n <= |text| && ',' !in text[..n] && (n < |text| ==> text[n] == ',')
                               && ClientIp(forwarded, host) == Subjects.Strip(text[..n])
    ensures forwarded.None? || forwarded == Some("") ==> ClientIp(forwarded, host) == if host.Some? then host.value else "unknown"
  {
    if forwarded.Some? && forwarded.value != "" {
      var text := forwarded.value;
      BeforeCommaMeans(text);
      var n: nat := |BeforeComma(text)|;
      assert text[..n] == BeforeComma(text);
    }
  }
}

/** services/tenant_service.py: membership reads and the writes that clear the caches. */
module TenantService {
  import opened Common
  import opened TenantCache
  import Subjects

  const ORG_ROLES := {"org_admin", "sales_manager", "sales_user", "viewer"}
  const STATUSES := {"ACTIVE", "INVITED", "DISABLED"}

  /** The authenticated user. */
  datatype Actor = Actor(user: int, systemOwner: bool)

  /** UnknownOrg is the broken foreign key of a membership write, or the missing row after an update. */
  datatype Reply = Done | InvalidValue | Denied | Conflict | UnknownOrg

  /** `require_org_role` for the administrators of an organization, without the cache. */
  predicate MayAdminister(tables: Tables, actor: Actor, org: int) {
    actor.systemOwner || (Query(tables, actor.user, org).Some? && Query(tables, actor.user, org).value.role == "org_admin")
  }

  function WithUser(tables: Tables, org: int, user: int, role: string, status: string): Tables {
    tables.(users := tables.users[(org, user) := OrgUser(role, status)])
  }

  predicate SlugTaken(tables: Tables, slug: string) {
    exists id :: id in tables.orgs && tables.orgs[id].slug == slug
  }

  class TenantService {
    const ttl: int
    var tables: Tables
    var cache: Cache

    /** Between calls every cache entry is what the query would answer. */
    ghost predicate Valid()
      reads this
    {
      Fresh(cache, tables)
    }

    constructor (ttl: int, tables: Tables)
      ensures Valid() && this.ttl == ttl && this.tables == tables && cache == map[]
    {
      this.ttl := ttl;
      this.tables := tables;
      cache := map[];
    }

    method ClearTenantCaches()
      modifies this`cache
      ensures Valid() && cache == map[]
    {
      cache := map[];
    }

    /** A hit equals the uncached query. `now` and `setAt` are the two clock readings. */
    method GetMembership(user: int, org: int, now: int, setAt: int) returns (membership: Option<Membership>)
      requires Valid()
      modifies this`cache
      ensures Valid()
      ensures membership == Query(tables, user, org)
      ensures (cache, membership) == Get(old(cache), tables, user, org, now, setAt, ttl)
    {
      GetKeepsFresh(cache, tables, user, org, now, setAt, ttl);
      var key := (user, org);
      if ttl > 0 && key in cache {
        var entry := cache[key];
        if entry.expires <= now {
          cache := cache - {key};
        } else if entry.value.Some? {
          return entry.value;
        }
      }
      membership := Query(tables, user, org);
      if ttl > 0 {
        cache := cache[key := Entry(setAt + ttl, membership)];
      }
    }

    method RequireAdmin(actor: Actor, org: int, now: int, setAt: int) returns (allowed: bool)
      requires Valid()
      modifies this`cache
      ensures Valid() && allowed == MayAdminister(tables, actor, org)
    {
      if actor.systemOwner {
        return true;
      }
      var membership := GetMembership(actor.user, org, now, setAt);
      return membership.Some? && membership.value.role == "org_admin";
    }

    /** Permission is decided on the tables as they are, never on a stale membership. */
    method UpsertOrgUser(org: int, user: int, role: string, status: string, actor: Actor, now: int, setAt: int) returns (reply: Reply)
      requires Valid()
      modifies this
      ensures Valid()
      ensures reply == if role !in ORG_ROLES || status !in STATUSES then InvalidValue
                       else if !MayAdminister(old(tables), actor, org) then Denied
                       else if org !in old(tables).orgs then UnknownOrg else Done
      ensures tables == if reply == Done then WithUser(old(tables), org, user, role, status) else old(tables)
      ensures reply == Done ==> cache == map[]
    {
      if role !in ORG_ROLES {
        return InvalidValue;
      }
      if status !in STATUSES {
        return InvalidValue;
      }
      var allowed := RequireAdmin(actor, org, now, setAt);
      if !allowed {
        return Denied;
      }
      if org !in tables.orgs {
        return UnknownOrg;
      }
      tables := tables.(users := tables.users[(org, user) := OrgUser(role, status)]);
      ClearTenantCaches();
      return Done;
    }

    /** A slug that is taken makes the insert fail, and the transaction is rolled back. */
    method CreateOrganization(name: string, slug: string, owner: Option<int>, timezone: string, actor: Actor) returns (reply: Reply)
      requires Valid()
      modifies this
      ensures Valid()
      ensures reply == if !actor.systemOwner then Denied else if SlugTaken(old(tables), slug) then Conflict else Done
      ensures reply != Done ==> tables == old(tables) && cache == old(cache)
      ensures reply == Done ==>
                var id := old(tables).nextOrg;
                var created := old(tables).(orgs := old(tables).orgs[id := Org(Subjects.Strip(name), slug, timezone)], nextOrg := id + 1);
                && tables == (if owner.Some? then WithUser(created, id, owner.value, "org_admin", "ACTIVE") else created)
                && cache == map[]
    {
      if !actor.systemOwner {
        return Denied;
      }
      if SlugTaken(tables, slug) {
        return Conflict;
      }
      var id := tables.nextOrg;
      tables := tables.(orgs := tables.orgs[id := Org(Subjects.Strip(name), slug, timezone)], nextOrg := id + 1);
      if owner.Some? {
        tables := tables.(users := tables.users[(id, owner.value) := OrgUser("org_admin", "ACTIVE")]);
      }
      ClearTenantCaches();
      return Done;
    }

    method UpdateOrganization(org: int, name: Option<string>, timezone: Option<string>, actor: Actor, now: int, setAt: int)
      returns (reply: Reply)
      requires Valid()
      modifies this
      ensures Valid()
      ensures reply == if !MayAdminister(old(tables), actor, org) then Denied
                       else if name.Some? && Subjects.Strip(name.value) == "" then InvalidValue
                       else if org !in old(tables).orgs then UnknownOrg else Done
      ensures reply != Done || (name.None? && timezone.None?) ==> tables == old(tables)
      ensures reply == Done ==>
                var row := old(tables).orgs[org];
                tables == old(tables).(orgs := old(tables).orgs[org := Org(
                  if name.Some? then Subjects.Strip(name.value) else row.name, row.slug,
                  if timezone.Some? then timezone.value else row.timezone)])
      ensures reply == Done && (name.Some? || timezone.Some?) ==> cache == map[]
    {
      var allowed := RequireAdmin(actor, org, now, setAt);
      if !allowed {
        return Denied;
      }
      if name.Some? && Subjects.Strip(name.value) == "" {
        return InvalidValue;
      }
      if name.Some? || timezone.Some? {
        if org in tables.orgs {
          var row := tables.orgs[org];
          if name.Some? {
            row := row.(name := Subjects.Strip(name.value));
          }
          if timezone.Some? {
            row := row.(timezone := timezone.value);
          }
          tables := tables.(orgs := tables.orgs[org := row]);
        }
        ClearTenantCaches();
      }
      if org !in tables.orgs {
        return UnknownOrg;
      }
      assert name.None? && timezone.None? ==> tables.orgs == tables.orgs[org := tables.orgs[org]];
      return Done;
    }
  }
}

/** The member and organization services as the source has them: methods over the tables and Redis.
    Each does to the state exactly what its specification function in Membership says. */
module MembershipServices {
  import opened Outcomes
  import opened Pagination
  import opened RedisStore
  import M = Membership

  const CACHE_TTL := 300

  class PrismaClient {
    var users: seq<M.User>
    var orgs: map<string, M.Org>
    var rows: seq<M.Row>

    constructor (users: seq<M.User>)
      ensures this.users == users && orgs == map[] && rows == []
    {
      this.users, orgs, rows := users, map[], [];
    }

    function Tables(): M.Database
      reads this
    {
      M.Database(users, orgs, rows)
    }
  }

  ghost function StateOf(db: PrismaClient, redis: RedisService<M.Cached>): M.World
    reads db, redis
  {
    M.World(db.Tables(), redis.View(), redis.ready)
  }

  class MemberService {
    const prisma: PrismaClient
    const redis: RedisService<M.Cached>

    constructor (prisma: PrismaClient, redis: RedisService<M.Cached>)
      ensures this.prisma == prisma && this.redis == redis
    {
      this.prisma, this.redis := prisma, redis;
    }

    ghost predicate Valid()
      reads redis
    {
      redis.Valid()
    }

    ghost function State(): M.World
      reads prisma, redis
    {
      StateOf(prisma, redis)
    }

    /** The two deletions that follow every change of a membership. */
    method Invalidate(organizationId: string, userId: string)
      requires Valid()
      modifies redis`store
      ensures Valid() && State() == M.Invalidate(old(State()), organizationId, userId)
    {
      hide Matching, Contents;
      var _ := redis.DelPattern(M.MembersPattern(organizationId));
      var _ := redis.DelPattern(M.OrgPattern(userId));
    }

    /** listMembers */
    method ListMembers(organizationId: string, query: Query) returns (r: Result<M.Cached, M.Error>)
      requires Valid()
      modifies redis
      ensures Valid() && (State(), r) == M.ListMembers(old(State()), organizationId, query)
    {
      hide Contents, M.ViewsOf, M.Filter, BuildOffsetPagination, PageOf;
      var params := ParsePaginationParams(query);
      if params.ByCursor? {
        return Err(M.InvalidSkip);
      }
      var limit, page := params.limit, params.page;
      if page == 1 && limit == 20 {
        var cached := redis.Get(M.MembersKey(organizationId));
        if cached.Some? {
          return Ok(cached.value);
        }
      }
      var rows := M.Filter(prisma.rows, M.InOrg(organizationId));
      var members, total := PageOf(rows, page, limit), |rows|;
      var result := M.MemberPage(M.ViewsOf(prisma.users, members), BuildOffsetPagination(total, page, limit));
      if page == 1 && limit == 20 {
        var _ := redis.Set(M.MembersKey(organizationId), result, CACHE_TTL);
      }
      r := Ok(result);
    }

    /** addMember; the database gives the row its id and time. */
    method AddMember(organizationId: string, email: string, role: M.Role, rowId: string, at: nat)
      returns (r: Result<M.MemberView, M.Error>)
      requires Valid()
      modifies prisma`rows, redis`store
      ensures Valid() && (State(), r) == M.AddMember(old(State()), organizationId, email, role, rowId, at)
    {
      hide M.Lookup, M.UserByEmail, M.ViewOf, M.Invalidate, Contents;
      var targetUser := M.UserByEmail(prisma.users, email);
      if targetUser.None? {
        return Err(M.UserNotFound);
      }
      var existing := M.Lookup(prisma.rows, targetUser.value.id, organizationId);
      if existing.Some? {
        return Err(M.AlreadyMember);
      }
      var membership := M.Row(rowId, targetUser.value.id, organizationId, role, at);
      prisma.rows := prisma.rows + [membership];
      Invalidate(organizationId, targetUser.value.id);
      r := Ok(M.ViewOf(prisma.users, membership));
    }

    /** updateMemberRole */
    method UpdateMemberRole(organizationId: string, targetUserId: string, role: M.Role, actingUser: M.Acting)
      returns (r: Result<M.MemberView, M.Error>)
      requires Valid()
      modifies prisma`rows, redis`store
      ensures Valid()
      ensures (State(), r) == M.UpdateMemberRole(old(State()), organizationId, targetUserId, role, actingUser)
    {
      hide M.Lookup, M.ViewOf, M.Invalidate, M.WithRole, M.Filter, Contents;
      var target := M.Lookup(prisma.rows, targetUserId, organizationId);
      if target.None? {
        return Err(M.MemberNotFound);
      }
      if target.value.role == M.OWNER && actingUser.role != M.OWNER {
        return Err(M.OwnerProtected);
      }
      if role == M.OWNER && actingUser.role != M.OWNER {
        return Err(M.PromotionDenied);
      }
      if targetUserId == actingUser.userId && target.value.role == M.OWNER {
        var ownerCount := |M.Filter(prisma.rows, M.OwnerIn(organizationId))|;
        if ownerCount <= 1 && role != M.OWNER {
          return Err(M.LastOwner);
        }
      }
      prisma.rows := M.WithRole(prisma.rows, target.value.id, role);
      Invalidate(organizationId, targetUserId);
      r := Ok(M.ViewOf(prisma.users, target.value.(role := role)));
    }

    /** removeMember */
    method RemoveMember(organizationId: string, targetUserId: string, actingUser: M.Acting)
        returns (r: Result<(), M.Error>)
      requires Valid()
      modifies prisma`rows, redis`store
      ensures Valid() && (State(), r) == M.RemoveMember(old(State()), organizationId, targetUserId, actingUser)
    {
      hide M.Lookup, M.Invalidate, M.Without, M.Filter, Contents;
      var target := M.Lookup(prisma.rows, targetUserId, organizationId);
      if target.None? {
        return Err(M.MemberNotFound);
      }
      if target.value.role == M.OWNER && actingUser.role != M.OWNER {
        return Err(M.OwnerProtected);
      }
      if target.value.role == M.OWNER {
        var ownerCount := |M.Filter(prisma.rows, M.OwnerIn(organizationId))|;
        if ownerCount <= 1 {
          return Err(M.LastOwner);
        }
      }
      prisma.rows := M.Without(prisma.rows, target.value.id);
      Invalidate(organizationId, targetUserId);
      r := Ok(());
    }
  }

  class OrganizationService {
    const prisma: PrismaClient
    const redis: RedisService<M.Cached>

    constructor (prisma: PrismaClient, redis: RedisService<M.Cached>)
      ensures this.prisma == prisma && this.redis == redis
    {
      this.prisma, this.redis := prisma, redis;
    }

    ghost predicate Valid()
      reads redis
    {
      redis.Valid()
    }

    ghost function State(): M.World
      reads prisma, redis
    {
      StateOf(prisma, redis)
    }

    /** create: the organization and its owner in one transaction. */
    method Create(name: string, userId: string, newOrg: string, rowId: string, at: nat) returns (r: M.Org)
      requires Valid()
      modifies prisma`orgs, prisma`rows, redis`store
      ensures Valid() && (State(), r) == M.Create(old(State()), name, userId, newOrg, rowId, at)
    {
      hide Contents, Matching, M.OrgPattern;
      r := M.Org(newOrg, name);
      prisma.orgs := prisma.orgs[newOrg := r];
      prisma.rows := prisma.rows + [M.Row(rowId, userId, newOrg, M.OWNER, at)];
      var _ := redis.DelPattern(M.OrgPattern(userId));
    }

    /** listForUser */
    method ListForUser(userId: string, query: Query) returns (r: Result<M.Cached, M.Error>)
      requires Valid()
      modifies redis
      ensures Valid() && (State(), r) == M.ListForUser(old(State()), userId, query)
    {
      hide Contents, M.OrgViewsOf, M.Filter, BuildOffsetPagination, PageOf;
      var params := ParsePaginationParams(query);
      if params.ByCursor? {
        return Err(M.InvalidSkip);
      }
      var limit, page := params.limit, params.page;
      if page == 1 && limit == 20 {
        var cached := redis.Get(M.OrgKey(userId, "list"));
        if cached.Some? {
          return Ok(cached.value);
        }
      }
      var rows := M.Filter(prisma.rows, M.OfUser(userId));
      var memberships, total := PageOf(rows, page, limit), |rows|;
      var result := M.OrgPage(M.OrgViewsOf(prisma.orgs, memberships), BuildOffsetPagination(total, page, limit));
      if page == 1 && limit == 20 {
        var _ := redis.Set(M.OrgKey(userId, "list"), result, CACHE_TTL);
      }
      r := Ok(result);
    }

    /** getById */
    method GetById(organizationId: string, userId: string) returns (r: Result<M.Cached, M.Error>)
      requires Valid()
      modifies redis
      ensures Valid() && (State(), r) == M.GetById(old(State()), organizationId, userId)
    {
      hide Contents, M.Lookup, M.OrgViewOf, M.OrgKey;
      var cacheKey := M.OrgKey(userId, organizationId);
      var cached := redis.Get(cacheKey);
      if cached.Some? {
        return Ok(cached.value);
      }
      var membership := M.Lookup(prisma.rows, userId, organizationId);
      if membership.None? {
        return Err(M.AccessDenied);
      }
      var result := M.Record(M.OrgViewOf(prisma.orgs, membership.value));
      var _ := redis.Set(cacheKey, result, CACHE_TTL);
      r := Ok(result);
    }
  }
}

/** When a member-management request is granted and what it then does, told by the membership rows
    alone: who may manage, which refusal comes first, which rows change and what is answered. */
module MembershipGrants {
  import opened Outcomes
  import opened Pagination
  import opened Membership
  import opened RedisStore
  import opened MembershipSafety

  ghost predicate IsMember(rows: seq<Row>, user: string, org: string) {
    exists r :: r in rows && r.userId == user && r.orgId == org
  }

  ghost predicate Holds(rows: seq<Row>, user: string, org: string, role: Role) {
    exists r :: r in rows && r.userId == user && r.orgId == org && r.role == role
  }

  ghost predicate Manages(rows: seq<Row>, user: string, org: string) {
    Holds(rows, user, org, OWNER) || Holds(rows, user, org, ADMIN)
  }

  ghost predicate OnlyOwner(rows: seq<Row>, user: string, org: string) {
    && Holds(rows, user, org, OWNER)
    && forall r | r in rows && r.orgId == org && r.role == OWNER :: r.userId == user
  }

  /** The unique keys of the users table. */
  ghost predicate UsersKeyed(users: seq<User>) {
    && (forall i, j | 0 <= i < j < |users| :: users[i].id != users[j].id)
    && (forall i, j | 0 <= i < j < |users| :: users[i].email != users[j].email)
  }

  ghost predicate Manage(e: Event) {
    e.Add? || e.SetRole? || e.Remove?
  }

  /** Why the rows refuse a request, if they do; the first reason in this order. */
  ghost function Reason(db: Database, e: Event): Option<Error>
    requires Manage(e)
  {
    if !IsMember(db.rows, e.actor, e.org) then Some(AccessDenied)
    else if !Manages(db.rows, e.actor, e.org) then Some(RoleInsufficient)
    else
      match e
      case Add(_, org, email, role, _, _) =>
        if role == OWNER || role == VIEWER then Some(InvalidRole)
        else if !exists u :: u in db.users && u.email == email then Some(UserNotFound)
        else if exists u :: u in db.users && u.email == email && IsMember(db.rows, u.id, org) then Some(AlreadyMember)
        else None
      case SetRole(actor, org, target, role) =>
        if role == VIEWER then Some(InvalidRole)
        else if !IsMember(db.rows, Canon(target), org) then Some(MemberNotFound)
        else if Holds(db.rows, actor, org, OWNER) then
          if target == actor && role != OWNER && OnlyOwner(db.rows, actor, org) then Some(LastOwner) else None
        else if Holds(db.rows, Canon(target), org, OWNER) then Some(OwnerProtected)
        else if role == OWNER then Some(PromotionDenied)
        else None
      case Remove(actor, org, target) =>
        if !IsMember(db.rows, Canon(target), org) then Some(MemberNotFound)
        else if !Holds(db.rows, Canon(target), org, OWNER) then None
        else if !Holds(db.rows, actor, org, OWNER) then Some(OwnerProtected)
        else if OnlyOwner(db.rows, Canon(target), org) then Some(LastOwner)
        else None
  }

  /** What a lookup in the database's spelling says of the rows. */
  lemma LookupTells(db: Database, user: string, org: string)
    requires Tables(db) && Canon(org) == org
    ensures Lookup(db.rows, user, org).Some? <==> IsMember(db.rows, Canon(user), org)
    ensures forall role | Lookup(db.rows, user, org).Some? ::
              Holds(db.rows, Canon(user), org, role) <==> Lookup(db.rows, user, org).value.role == role
    ensures var t := Lookup(db.rows, user, org);
      t.Some? ==> t.value in db.rows && t.value.userId == Canon(user) && t.value.orgId == org
  {
    hide Canon, Lookup;
    LookupFinds(db.rows, user, org);
    DistinctRows(db);
    var t := Lookup(db.rows, user, org);
    if t.Some? {
      forall r | r in db.rows && r.userId == Canon(user) && r.orgId == org ensures r == t.value {
        SameRow(db.rows, r, t.value);
      }
    }
  }

  /** Counting the rows of owners says whether there is only one. */
  lemma OneOwnerRow(db: Database, t: Row)
    requires Tables(db) && t in db.rows && t.role == OWNER
    ensures |Filter(db.rows, OwnerIn(t.orgId))| <= 1 <==> OnlyOwner(db.rows, t.userId, t.orgId)
  {
    DistinctRows(db);
    OwnerRowsAreOwners(db.rows, t.orgId);
    var owners := Owners(db.rows, t.orgId);
    AtMostOne(owners, t.userId);
    if OnlyOwner(db.rows, t.userId, t.orgId) {
      assert owners == {t.userId};
    } else {
      var r :| r in db.rows && r.orgId == t.orgId && r.role == OWNER && r.userId != t.userId;
      assert r.userId in owners;
    }
  }

  /** The middleware in front of the member routes. */
  lemma GuardTells(db: Database, actor: string, org: string)
    requires Tables(db) && Canon(actor) == actor && Canon(org) == org
    ensures var guard := Guard(db.rows, actor, org, true);
      && (guard == Err(AccessDenied) <==> !IsMember(db.rows, actor, org))
      && (guard == Err(RoleInsufficient) <==> IsMember(db.rows, actor, org) && !Manages(db.rows, actor, org))
      && (guard.Ok? <==> Manages(db.rows, actor, org))
      && (guard.Ok? ==> guard.value.userId == actor
                        && (guard.value.role == OWNER <==> Holds(db.rows, actor, org, OWNER)))
  {
    hide Canon, Lookup;
    LookupTells(db, actor, org);
  }

  lemma UserTells(db: Database, email: string)
    requires UsersKeyed(db.users)
    ensures UserByEmail(db.users, email).Some? <==> exists u :: u in db.users && u.email == email
    ensures forall u | u in db.users && u.email == email :: UserByEmail(db.users, email) == Some(u)
  {
    hide UserByEmail;
    var found := UserByEmail(db.users, email);
    forall u | u in db.users && u.email == email ensures found == Some(u) {
      var i :| 0 <= i < |db.users| && db.users[i] == u;
      var j :| 0 <= j < |db.users| && db.users[j] == found.value;
      assert i == j;
    }
  }

  lemma AddDecided(w: World, e: Event)
    requires Tables(w.db) && UsersKeyed(w.db.users) && Enabled(w, e) && e.Add?
    ensures Reason(w.db, e).None? <==> Allowed(w.db, e)
    ensures Step(w, e).1.Denied? <==> Reason(w.db, e).Some?
    ensures Reason(w.db, e).Some? ==> Step(w, e).1 == Denied(Reason(w.db, e).value)
  {
    hide Canon, Lookup, Guard, IsMember, Manages, Holds, UserByEmail, IdLike, NewRow, ViewOf, Matching;
    GuardTells(w.db, e.actor, e.org);
    MembersManage(w.db.rows, e.actor, e.org);
    UserTells(w.db, e.email);
    var user := UserByEmail(w.db.users, e.email);
    if user.Some? {
      KnownUser(w.db, user.value);
      LookupTells(w.db, user.value.id, e.org);
    }
  }

  lemma KnownUser(db: Database, u: User)
    requires Tables(db) && u in db.users
    ensures KnownId(u.id)
  {
  }

  lemma MembersManage(rows: seq<Row>, user: string, org: string)
    ensures Manages(rows, user, org) ==> IsMember(rows, user, org)
  {
  }

  lemma RoleDecided(w: World, e: Event)
    requires Tables(w.db) && Enabled(w, e) && e.SetRole?
    ensures Reason(w.db, e).None? <==> Allowed(w.db, e)
    ensures Step(w, e).1.Denied? <==> Reason(w.db, e).Some?
    ensures Reason(w.db, e).Some? ==> Step(w, e).1 == Denied(Reason(w.db, e).value)
  {
    hide Canon, Lookup, Guard, IsMember, Manages, Holds, OnlyOwner, IdLike, ViewOf, Matching, WithRole, Filter;
    GuardTells(w.db, e.actor, e.org);
    MembersManage(w.db.rows, e.actor, e.org);
    LookupTells(w.db, e.target, e.org);
    var t := Lookup(w.db.rows, e.target, e.org);
    if t.Some? && t.value.role == OWNER {
      OneOwnerRow(w.db, t.value);
    }
    OwnersHold(w.db.rows, e.actor, e.org);
  }

  lemma OwnersHold(rows: seq<Row>, user: string, org: string)
    ensures OnlyOwner(rows, user, org) ==> Holds(rows, user, org, OWNER)
  {
  }

  lemma RemovalDecided(w: World, e: Event)
    requires Tables(w.db) && Enabled(w, e) && e.Remove?
    ensures Reason(w.db, e).None? <==> Allowed(w.db, e)
    ensures Step(w, e).1.Denied? <==> Reason(w.db, e).Some?
    ensures Reason(w.db, e).Some? ==> Step(w, e).1 == Denied(Reason(w.db, e).value)
  {
    hide Canon, Lookup, Guard, IsMember, Manages, Holds, OnlyOwner, IdLike, ViewOf, Matching, Without, Filter;
    GuardTells(w.db, e.actor, e.org);
    MembersManage(w.db.rows, e.actor, e.org);
    LookupTells(w.db, e.target, e.org);
    var t := Lookup(w.db.rows, e.target, e.org);
    if t.Some? && t.value.role == OWNER {
      OneOwnerRow(w.db, t.value);
    }
  }

  /** A request to manage members is granted exactly when the rows give no reason against it; otherwise it
      is answered with that reason and changes nothing. */
  lemma DecidedByRows(w: World, e: Event)
    requires Tables(w.db) && UsersKeyed(w.db.users) && Enabled(w, e) && Manage(e)
    ensures Reason(w.db, e).None? <==> !Step(w, e).1.Denied?
    ensures Reason(w.db, e).Some? ==> Step(w, e).1 == Denied(Reason(w.db, e).value) && Step(w, e).0 == w
    ensures Reason(w.db, e).None? <==> Allowed(w.db, e)
  {
    hide Reason, Step, Allowed, Enabled, Tables, UsersKeyed;
    match e {
      case Add(_, _, _, _, _, _) => AddDecided(w, e);
      case SetRole(_, _, _, _) => RoleDecided(w, e);
      case Remove(_, _, _) => RemovalDecided(w, e);
    }
    if Reason(w.db, e).Some? {
      RefusalChangesNothing(w, e);
    }
  }

  /** Nobody manages members without a row as OWNER or ADMIN in that organization. */
  lemma OnlyManagersManage(w: World, e: Event)
    requires Tables(w.db) && Enabled(w, e) && Manage(e)
    requires !exists r :: r in w.db.rows && r.userId == e.actor && r.orgId == e.org
                          && (r.role == OWNER || r.role == ADMIN)
    ensures Step(w, e).0 == w
    ensures Step(w, e).1 == Denied(if exists r :: r in w.db.rows && r.userId == e.actor && r.orgId == e.org
                                   then RoleInsufficient else AccessDenied)
  {
    hide Canon, Lookup, IdLike, NewRow, Guard, Tables;
    GuardTells(w.db, e.actor, e.org);
  }

  // ---- What a granted request does ----

  /** One row more, at the end. */
  ghost predicate AddsRow(before: Database, after: Database, row: Row) {
    after == before.(rows := before.rows + [row])
  }

  /** This row's role is another, in its place; every other row is as it was. */
  ghost predicate ChangesRole(before: Database, after: Database, t: Row, role: Role) {
    && t in before.rows && after.users == before.users && after.orgs == before.orgs
    && |after.rows| == |before.rows|
    && forall i | 0 <= i < |before.rows| ::
         after.rows[i] == if before.rows[i] == t then t.(role := role) else before.rows[i]
  }

  /** This row is gone and every other is still there. */
  ghost predicate DropsRow(before: Database, after: Database, t: Row) {
    && t in before.rows && after.users == before.users && after.orgs == before.orgs
    && forall r :: r in after.rows <==> r in before.rows && r != t
  }

  lemma {:induction false} UserByIdHasId(users: seq<User>, id: string)
    ensures UserById(users, id).id == id
  {
    if users == [] || users[0].id == id {
    } else {
      UserByIdHasId(users[1..], id);
    }
  }

  /** The answer shows the row, with its user's email and name. */
  ghost predicate ShowsRow(users: seq<User>, m: MemberView, row: Row) {
    && m.id == row.id && m.userId == row.userId && m.role == row.role && m.joinedAt == row.joinedAt
    && forall u | u in users && u.id == row.userId :: m.email == u.email && m.name == u.name
  }

  lemma ViewShowsRow(users: seq<User>, row: Row)
    requires UsersKeyed(users)
    ensures ShowsRow(users, ViewOf(users, row), row)
  {
    hide UserById;
    UserByIdHasId(users, row.userId);
    forall u | u in users && u.id == row.userId ensures UserById(users, row.userId) == u {
      UserIsFound(users, u);
    }
  }

  /** A granted addition appends one row, for the user with that email. */
  lemma GrantedAdd(w: World, e: Event) returns (u: User)
    requires Tables(w.db) && UsersKeyed(w.db.users) && Enabled(w, e) && e.Add? && Reason(w.db, e).None?
    ensures u in w.db.users && u.email == e.email
    ensures var row := Row(e.rowId, u.id, e.org, e.role, e.at);
      && AddsRow(w.db, Step(w, e).0.db, row)
      && Step(w, e).1 == Changed(MemberView(e.rowId, u.id, u.email, u.name, e.role, e.at))
  {
    hide Reason, Lookup, UserByEmail, Matching, Tables, Invalidate, UserById;
    AddDecided(w, e);
    u := UserByEmail(w.db.users, e.email).value;
    UserIsFound(w.db.users, u);
    StepActsOnTables(w, e);
  }

  /** A granted role change gives the one row of the target user in that organization the new role. */
  lemma GrantedRole(w: World, e: Event) returns (t: Row)
    requires Tables(w.db) && UsersKeyed(w.db.users) && Enabled(w, e) && e.SetRole? && Reason(w.db, e).None?
    ensures t.userId == Canon(e.target) && t.orgId == e.org && ChangesRole(w.db, Step(w, e).0.db, t, e.role)
    ensures Step(w, e).1.Changed? && ShowsRow(w.db.users, Step(w, e).1.member, t.(role := e.role))
  {
    hide Reason, Lookup, Matching, Tables, Invalidate, UserById, Canon, RoleRefusal, UserByEmail, Guard, UsersKeyed;
    RoleDecided(w, e);
    t := TargetRow(w.db, e);
    DistinctRows(w.db);
    StepActsOnTables(w, e);
    ViewShowsRow(w.db.users, t.(role := e.role));
  }

  /** A granted removal deletes that row. */
  lemma GrantedRemoval(w: World, e: Event) returns (t: Row)
    requires Tables(w.db) && UsersKeyed(w.db.users) && Enabled(w, e) && e.Remove? && Reason(w.db, e).None?
    ensures t.userId == Canon(e.target) && t.orgId == e.org && DropsRow(w.db, Step(w, e).0.db, t)
    ensures Step(w, e).1 == Gone
  {
    hide Reason, Lookup, Matching, Tables, Invalidate, Canon, RemovalRefusal, Guard, UserByEmail;
    RemovalDecided(w, e);
    t := TargetRow(w.db, e);
    DistinctRows(w.db);
    StepActsOnTables(w, e);
    forall r ensures r in Without(w.db.rows, t.id) <==> r in w.db.rows && r != t {
      FilterMembers(w.db.rows, NotId(t.id), r);
      if r in w.db.rows && r.id == t.id {
        SameRow(w.db.rows, r, t);
      }
    }
  }

  /** Creating an organization makes the actor its owner and only member; it is never refused. */
  lemma CreationWrites(w: World, e: Event)
    requires Enabled(w, e) && e.CreateOrg?
    ensures var after, org := Step(w, e).0.db, Org(e.newOrg, e.name);
      && after.users == w.db.users && after.orgs == w.db.orgs[e.newOrg := org]
      && after.rows == w.db.rows + [Row(e.rowId, e.actor, e.newOrg, OWNER, e.at)]
      && Step(w, e).1 == Created(org)
  {
    hide Matching;
    StepActsOnTables(w, e);
  }

  // ---- What a read shows ----

  /** The list of members is refused exactly to those with no row in the organization. */
  lemma ReadersAreMembers(w: World, e: Event)
    requires Consistent(w) && Enabled(w, e) && e.ShowMembers?
    ensures Step(w, e).1 == Denied(AccessDenied) <==> !IsMember(w.db.rows, e.actor, e.org)
  {
    hide Step, Canon, Lookup, IdLike, IsMember, Coherent;
    ReadsAreFresh(w, e);
    LookupTells(w.db, e.actor, e.org);
  }

  /** The organization's record shows the organization with the actor's own role, or is refused when the
      actor has no row there. */
  lemma RecordShowsRow(w: World, e: Event)
    requires Consistent(w) && Enabled(w, e) && e.ShowOrg?
    ensures var org, reply := Canon(e.org), Step(w, e).1;
      if !IsMember(w.db.rows, e.actor, org) then reply == Denied(AccessDenied)
      else exists r :: r in w.db.rows && r.userId == e.actor && r.orgId == org && org in w.db.orgs
                       && reply == Shown(Record(OrgView(w.db.orgs[org], r.role, r.joinedAt)))
  {
    hide Step, Canon, Lookup, IdLike, Coherent;
    ReadsAreFresh(w, e);
    LookupFinds(w.db.rows, e.actor, e.org);
  }

  /** Each line of a user's list is one of the user's memberships, in order, with its organization and role. */
  lemma OrgsReadShowsRows(db: Database, user: string, page: nat, limit: nat, i: nat)
    requires Tables(db) && page >= 1 && limit >= 1 && i < |OrgsRead(db, user, page, limit).orgs|
    ensures var rows, k := Filter(db.rows, OfUser(user)), Skipped(page, limit) + i;
      && k < |rows| && rows[k] in db.rows && rows[k].userId == user && rows[k].orgId in db.orgs
      && OrgsRead(db, user, page, limit).orgs[i] == OrgView(db.orgs[rows[k].orgId], rows[k].role, rows[k].joinedAt)
  {
    hide Canon;
    var rows := Filter(db.rows, OfUser(user));
    var r := PageOf(rows, page, limit)[i];
    assert r == rows[Skipped(page, limit) + i];
    FilterMembers(db.rows, OfUser(user), r);
  }
}

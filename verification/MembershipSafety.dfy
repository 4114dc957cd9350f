/** What every run of the membership services keeps: the tables' constraints, an owner in every
    organization, and caches that agree with the table. */
module MembershipSafety {
  import opened Outcomes
  import opened Pagination
  import opened RedisStore
  import opened Membership

  // ---- Tables ----

  ghost predicate Distinct(rows: seq<Row>) {
    && (forall i, j | 0 <= i < j < |rows| :: rows[i].id != rows[j].id)
    && (forall i, j | 0 <= i < j < |rows| :: rows[i].userId != rows[j].userId || rows[i].orgId != rows[j].orgId)
  }

  ghost predicate KnownId(id: string) {
    IdLike(id) && Canon(id) == id
  }

  /** The database's own constraints: keys unique, ids in the database's spelling, rows pointing to
      existing organizations. */
  ghost predicate Tables(db: Database) {
    && Distinct(db.rows)
    && (forall r | r in db.rows :: KnownId(r.userId) && r.orgId in db.orgs)
    && (forall o | o in db.orgs :: KnownId(o))
    && (forall u | u in db.users :: KnownId(u.id))
  }

  function Owners(rows: seq<Row>, org: string): set<string> {
    set r | r in rows && r.orgId == org && r.role == OWNER :: r.userId
  }

  ghost predicate Owned(db: Database) {
    forall o | o in db.orgs :: Owners(db.rows, o) != {}
  }

  lemma {:induction false} FilterMembers(rows: seq<Row>, keep: Row -> bool, r: Row)
    ensures r in Filter(rows, keep) <==> r in rows && keep(r)
  {
    if rows == [] {
    } else {
      FilterMembers(rows[1..], keep, r);
      assert rows == [rows[0]] + rows[1..];
    }
  }

  lemma {:induction false} FilterSnoc(rows: seq<Row>, r: Row, keep: Row -> bool)
    ensures Filter(rows + [r], keep) == if keep(r) then Filter(rows, keep) + [r] else Filter(rows, keep)
  {
    if rows == [] {
      assert rows + [r] == [r];
    } else {
      assert (rows + [r])[1..] == rows[1..] + [r];
      FilterSnoc(rows[1..], r, keep);
    }
  }

  lemma {:induction false} FilterWithRole(rows: seq<Row>, id: string, role: Role, keep: Row -> bool)
    requires forall r | r in rows && r.id == id :: !keep(r) && !keep(r.(role := role))
    ensures Filter(WithRole(rows, id, role), keep) == Filter(rows, keep)
  {
    if rows == [] {
    } else {
      assert WithRole(rows, id, role)[1..] == WithRole(rows[1..], id, role);
      assert rows[0] in rows;
      FilterWithRole(rows[1..], id, role, keep);
    }
  }

  lemma {:induction false} FilterWithout(rows: seq<Row>, id: string, keep: Row -> bool)
    requires forall r | r in rows && r.id == id :: !keep(r)
    ensures Filter(Without(rows, id), keep) == Filter(rows, keep)
  {
    if rows == [] {
    } else {
      assert rows[0] in rows;
      FilterWithout(rows[1..], id, keep);
    }
  }

  lemma {:induction false} FilterDistinct(rows: seq<Row>, keep: Row -> bool)
    requires Distinct(rows)
    ensures Distinct(Filter(rows, keep))
  {
    if rows == [] {
    } else {
      FilterDistinct(rows[1..], keep);
      var rest := Filter(rows[1..], keep);
      forall i | 0 <= i < |rest|
        ensures rest[i].id != rows[0].id && (rest[i].userId != rows[0].userId || rest[i].orgId != rows[0].orgId)
      {
        FilterMembers(rows[1..], keep, rest[i]);
      }
    }
  }

  /** A lookup finds the one row of that user in that organization. */
  lemma LookupFinds(rows: seq<Row>, user: string, org: string)
    ensures var found := Lookup(rows, user, org);
      && (found.Some? ==> found.value in rows && found.value.userId == Canon(user) && found.value.orgId == Canon(org))
      && (found.None? ==> forall r | r in rows :: r.userId != Canon(user) || r.orgId != Canon(org))
  {
    hide Canon;
    var keep := At(Canon(user), Canon(org));
    var found := Filter(rows, keep);
    if found == [] {
      forall r | r in rows ensures !keep(r) {
        FilterMembers(rows, keep, r);
      }
    } else {
      FilterMembers(rows, keep, found[0]);
    }
  }

  lemma SameRow(rows: seq<Row>, r: Row, s: Row)
    requires Distinct(rows) && r in rows && s in rows
    requires r.id == s.id || (r.userId == s.userId && r.orgId == s.orgId)
    ensures r == s
  {
  }

  // ---- Owners after a change ----

  lemma OwnersAfterAdd(rows: seq<Row>, r: Row, org: string)
    ensures Owners(rows + [r], org) == Owners(rows, org) + if r.orgId == org && r.role == OWNER then {r.userId} else {}
  {
  }

  lemma RowsAfterRole(rows: seq<Row>, t: Row, role: Role, r: Row)
    requires Distinct(rows) && t in rows
    ensures r in WithRole(rows, t.id, role) <==> (r in rows && r.id != t.id) || r == t.(role := role)
  {
    var after := WithRole(rows, t.id, role);
    if r in after {
      var i :| 0 <= i < |rows| && after[i] == r;
      if rows[i].id == t.id {
        SameRow(rows, rows[i], t);
      }
    }
    if r in rows && r.id != t.id {
      var i :| 0 <= i < |rows| && rows[i] == r;
      assert after[i] == r;
    }
    if r == t.(role := role) {
      var i :| 0 <= i < |rows| && rows[i] == t;
      assert after[i] == r;
    }
  }

  lemma OwnersAfterRole(rows: seq<Row>, t: Row, role: Role, org: string)
    requires Distinct(rows) && t in rows
    ensures Owners(WithRole(rows, t.id, role), org) ==
            if org != t.orgId then Owners(rows, org)
            else if role == OWNER then Owners(rows, org) + {t.userId} else Owners(rows, org) - {t.userId}
  {
    hide WithRole;
    var after := WithRole(rows, t.id, role);
    forall r {
      RowsAfterRole(rows, t, role, r);
    }
    var expected := if org != t.orgId then Owners(rows, org)
                    else if role == OWNER then Owners(rows, org) + {t.userId} else Owners(rows, org) - {t.userId};
    forall u ensures u in Owners(after, org) <==> u in expected {
      OwnerRow(rows, org, u);
      OwnerRow(after, org, u);
      if u in Owners(rows, org) && u != t.userId {
        var r :| r in rows && r.orgId == org && r.role == OWNER && r.userId == u;
        assert r in after by {
          if r.id == t.id {
            SameRow(rows, r, t);
          }
        }
      }
      if u in Owners(rows, org) && u == t.userId && org != t.orgId {
        var r :| r in rows && r.orgId == org && r.role == OWNER && r.userId == u;
        assert r in after by {
          if r.id == t.id {
            SameRow(rows, r, t);
          }
        }
      }
      if u in Owners(after, org) {
        var r :| r in after && r.orgId == org && r.role == OWNER && r.userId == u;
        if r in rows && r.userId == t.userId && r.orgId == t.orgId {
          SameRow(rows, r, t);
        }
      }
      assert t.(role := role) in after;
    }
  }

  lemma OwnerRow(rows: seq<Row>, org: string, u: string)
    ensures u in Owners(rows, org) <==> exists r :: r in rows && r.orgId == org && r.role == OWNER && r.userId == u
  {
  }

  lemma OwnersAfterRemoval(rows: seq<Row>, t: Row, org: string)
    requires Distinct(rows) && t in rows
    ensures Owners(Without(rows, t.id), org) ==
            if org != t.orgId then Owners(rows, org) else Owners(rows, org) - {t.userId}
  {
    forall r {
      FilterMembers(rows, NotId(t.id), r);
    }
    var after := Without(rows, t.id);
    forall u ensures u in Owners(after, org) <==> u in Owners(rows, org) && (org == t.orgId ==> u != t.userId) {
      if r :| r in rows && r.orgId == org && r.role == OWNER && r.userId == u {
        if r.id == t.id || (r.userId == t.userId && r.orgId == t.orgId) {
          SameRow(rows, r, t);
        } else {
          assert r in after;
        }
      }
    }
  }

  lemma OwnersCons(r: Row, rest: seq<Row>, org: string)
    requires Distinct([r] + rest)
    ensures Owners([r] + rest, org) == Owners(rest, org) + if OwnerIn(org)(r) then {r.userId} else {}
    ensures OwnerIn(org)(r) ==> r.userId !in Owners(rest, org)
  {
    var rows := [r] + rest;
    forall s | s in rest ensures s.userId != r.userId || s.orgId != r.orgId {
      var i :| 0 <= i < |rest| && rest[i] == s;
      assert rows[0] == r && rows[i + 1] == s;
    }
  }

  /** Each owner has one row, so counting rows counts owners. */
  lemma {:induction false} OwnerRowsAreOwners(rows: seq<Row>, org: string)
    requires Distinct(rows)
    ensures |Filter(rows, OwnerIn(org))| == |Owners(rows, org)|
  {
    if rows == [] {
      assert Owners(rows, org) == {};
    } else {
      assert rows == [rows[0]] + rows[1..];
      OwnersCons(rows[0], rows[1..], org);
      OwnerRowsAreOwners(rows[1..], org);
    }
  }

  // ---- The tables' constraints hold after every change ----

  ghost predicate Admits(db: Database, r: Row) {
    && NewRow(db.rows, r.id) && KnownId(r.userId) && r.orgId in db.orgs
    && forall s | s in db.rows :: s.userId != r.userId || s.orgId != r.orgId
  }

  lemma TablesAfterAdd(db: Database, r: Row)
    requires Tables(db) && Admits(db, r)
    ensures Tables(db.(rows := db.rows + [r]))
  {
    assert forall i | 0 <= i < |db.rows| :: db.rows[i] in db.rows;
  }

  lemma TablesAfterOrg(db: Database, org: Org)
    requires Tables(db) && KnownId(org.id) && org.id !in db.orgs
    ensures Tables(db.(orgs := db.orgs[org.id := org]))
  {
  }

  lemma TablesAfterRole(db: Database, t: Row, role: Role)
    requires Tables(db) && t in db.rows
    ensures Tables(db.(rows := WithRole(db.rows, t.id, role)))
  {
    hide Canon;
    var after := WithRole(db.rows, t.id, role);
    forall r | r in after ensures KnownId(r.userId) && r.orgId in db.orgs {
      RowsAfterRole(db.rows, t, role, r);
    }
    assert forall i | 0 <= i < |after| ::
        after[i].id == db.rows[i].id && after[i].userId == db.rows[i].userId && after[i].orgId == db.rows[i].orgId;
  }

  lemma TablesAfterRemoval(db: Database, id: string)
    requires Tables(db)
    ensures Tables(db.(rows := Without(db.rows, id)))
  {
    FilterDistinct(db.rows, NotId(id));
    forall r {
      FilterMembers(db.rows, NotId(id), r);
    }
  }

  // ---- Who owns what after a step ----

  /** The request passes its guards. */
  predicate Allowed(db: Database, e: Event) {
    match e
    case Add(actor, org, email, role, _, _) =>
      && Guard(db.rows, actor, org, true).Ok? && (role == ADMIN || role == MEMBER) && UserByEmail(db.users, email).Some?
      && Lookup(db.rows, UserByEmail(db.users, email).value.id, org).None?
    case SetRole(actor, org, target, role) =>
      var guard := Guard(db.rows, actor, org, true);
      guard.Ok? && role != VIEWER && RoleRefusal(db.rows, org, target, role, guard.value).None?
    case Remove(actor, org, target) =>
      var guard := Guard(db.rows, actor, org, true);
      guard.Ok? && RemovalRefusal(db.rows, org, target, guard.value).None?
    case _ => true
  }

  /** What the services do to the tables. */
  function DbStep(db: Database, e: Event): Database {
    if !Allowed(db, e) then db
    else
      match e
      case CreateOrg(actor, name, newOrg, rowId, at) =>
        db.(orgs := db.orgs[newOrg := Org(newOrg, name)], rows := db.rows + [Row(rowId, actor, newOrg, OWNER, at)])
      case Add(actor, org, email, role, rowId, at) =>
        db.(rows := db.rows + [Row(rowId, UserByEmail(db.users, email).value.id, org, role, at)])
      case SetRole(actor, org, target, role) =>
        db.(rows := WithRole(db.rows, Lookup(db.rows, target, org).value.id, role))
      case Remove(actor, org, target) =>
        db.(rows := Without(db.rows, Lookup(db.rows, target, org).value.id))
      case _ => db
  }

  lemma StepActsOnTables(w: World, e: Event)
    requires Enabled(w, e)
    ensures Step(w, e).0.db == DbStep(w.db, e) && Step(w, e).0.ready == w.ready
  {
    hide Lookup, RoleRefusal, RemovalRefusal, UserByEmail, Matching, MembersRead, OrgsRead, OrgViewOf, ViewOf, Enabled;
  }

  lemma AddIsAdmitted(db: Database, org: string, email: string, rowId: string, role: Role, at: nat)
    requires Tables(db) && org in db.orgs && NewRow(db.rows, rowId)
    requires UserByEmail(db.users, email).Some? && Lookup(db.rows, UserByEmail(db.users, email).value.id, org).None?
    ensures Admits(db, Row(rowId, UserByEmail(db.users, email).value.id, org, role, at))
  {
    hide Lookup, Canon;
    LookupFinds(db.rows, UserByEmail(db.users, email).value.id, org);
  }

  /** The acting row behind a guard that let the request through. */
  lemma GuardRow(db: Database, actor: string, org: string, managing: bool) returns (a: Row)
    requires Tables(db) && Canon(actor) == actor && Canon(org) == org && Guard(db.rows, actor, org, managing).Ok?
    ensures a in db.rows && a.userId == actor && a.orgId == org && org in db.orgs
    ensures Guard(db.rows, actor, org, managing).value == Acting(actor, a.role)
  {
    hide Lookup, Canon;
    LookupFinds(db.rows, actor, org);
    a := Lookup(db.rows, actor, org).value;
  }

  /** The row a permitted role change or removal is about. */
  lemma TargetRow(db: Database, e: Event) returns (t: Row)
    requires Tables(db) && (e.SetRole? || e.Remove?) && Canon(e.org) == e.org && Allowed(db, e)
    ensures t in db.rows && t.userId == Canon(e.target) && t.orgId == e.org
    ensures Lookup(db.rows, e.target, e.org) == Some(t)
  {
    hide Lookup, Canon;
    LookupFinds(db.rows, e.target, e.org);
    t := Lookup(db.rows, e.target, e.org).value;
  }

  lemma StepKeepsTables(db: Database, e: Event)
    requires Tables(db) && Enabled(World(db, map[], true), e)
    ensures Tables(DbStep(db, e))
  {
    hide Lookup, Canon, IdLike, Tables, WithRole, Without, RoleRefusal, RemovalRefusal, Admits, Guard;
    if Allowed(db, e) {
      match e
      case CreateOrg(actor, name, newOrg, rowId, at) =>
        TablesAfterOrg(db, Org(newOrg, name));
        NewOrgAdmits(db, newOrg, Row(rowId, actor, newOrg, OWNER, at), Org(newOrg, name));
        TablesAfterAdd(db.(orgs := db.orgs[newOrg := Org(newOrg, name)]), Row(rowId, actor, newOrg, OWNER, at));
      case Add(actor, org, email, role, rowId, at) =>
        var a := GuardRow(db, actor, org, true);
        AddIsAdmitted(db, org, email, rowId, role, at);
        TablesAfterAdd(db, Row(rowId, UserByEmail(db.users, email).value.id, org, role, at));
      case SetRole(actor, org, target, role) =>
        var t := TargetRow(db, e);
        TablesAfterRole(db, t, role);
      case Remove(actor, org, target) =>
        var t := TargetRow(db, e);
        TablesAfterRemoval(db, t.id);
      case _ =>
    }
  }

  lemma NewOrgAdmits(db: Database, newOrg: string, r: Row, org: Org)
    requires Tables(db) && newOrg !in db.orgs && r.orgId == newOrg && KnownId(r.userId) && NewRow(db.rows, r.id)
    ensures Admits(db.(orgs := db.orgs[newOrg := org]), r) && Owners(db.rows, newOrg) == {}
  {
  }

  // ---- Owners after a step ----

  lemma OwnerOrNot(rows: seq<Row>, r: Row)
    requires Distinct(rows) && r in rows
    ensures r.userId in Owners(rows, r.orgId) <==> r.role == OWNER
  {
    if r.userId in Owners(rows, r.orgId) {
      var o :| o in rows && o.orgId == r.orgId && o.role == OWNER && o.userId == r.userId;
      SameRow(rows, o, r);
    }
  }

  lemma AtMostOne(owners: set<string>, x: string)
    requires x in owners
    ensures |owners| <= 1 <==> owners == {x}
  {
    assert owners == {x} + (owners - {x});
  }

  /** The owners of an organization once a step is done. */
  function OwnersNext(db: Database, e: Event, org: string): set<string> {
    var before := Owners(db.rows, org);
    if !Allowed(db, e) then before
    else if e.CreateOrg? && org == e.newOrg then {e.actor}
    else if e.SetRole? && org == e.org then
      if e.role == OWNER then before + {Canon(e.target)} else before - {Canon(e.target)}
    else if e.Remove? && org == e.org then before - {Canon(e.target)}
    else before
  }

  lemma OwnersStep(db: Database, e: Event, org: string)
    requires Tables(db) && Enabled(World(db, map[], true), e)
    ensures Owners(DbStep(db, e).rows, org) == OwnersNext(db, e, org)
  {
    hide Lookup, Canon, IdLike, WithRole, Without, Owners, RoleRefusal, RemovalRefusal, Guard, Admits, UserByEmail,
      Allowed;
    if Allowed(db, e) {
      match e
      case CreateOrg(actor, name, newOrg, rowId, at) =>
        var r := Row(rowId, actor, newOrg, OWNER, at);
        NewOrgAdmits(db, newOrg, r, Org(newOrg, name));
        OwnersAfterAdd(db.rows, r, org);
      case Add(actor, org', email, role, rowId, at) =>
        AddedIsNoOwner(db, e);
        OwnersAfterAdd(db.rows, Row(rowId, UserByEmail(db.users, email).value.id, org', role, at), org);
      case SetRole(actor, org', target, role) =>
        var t := TargetRow(db, e);
        OwnersAfterRole(db.rows, t, role, org);
      case Remove(actor, org', target) =>
        var t := TargetRow(db, e);
        OwnersAfterRemoval(db.rows, t, org);
      case _ =>
    }
  }

  lemma AddedIsNoOwner(db: Database, e: Event)
    requires e.Add? && Allowed(db, e)
    ensures e.role != OWNER && UserByEmail(db.users, e.email).Some?
  {
  }

  /** An organization can lose its last owner in one way only: they give the role up under another
      spelling of their own id, which the self check does not recognise. */
  ghost predicate GivesUpUnseen(db: Database, e: Event) {
    && e.SetRole? && (e.role == ADMIN || e.role == MEMBER)
    && Owners(db.rows, e.org) == {e.actor}
    && Canon(e.target) == e.actor && e.target != e.actor
  }

  lemma RoleChangeOrphansIff(db: Database, e: Event)
    requires Tables(db) && Enabled(World(db, map[], true), e) && e.SetRole? && Owners(db.rows, e.org) != {}
    ensures OwnersNext(db, e, e.org) == {} <==> GivesUpUnseen(db, e)
  {
    hide Canon, IdLike, Lookup, Owners, Filter;
    LookupFinds(db.rows, e.actor, e.org);
    LookupFinds(db.rows, e.target, e.org);
    OwnerRowsAreOwners(db.rows, e.org);
    var owners := Owners(db.rows, e.org);
    var acting, target := Lookup(db.rows, e.actor, e.org), Lookup(db.rows, e.target, e.org);
    if acting.Some? {
      OwnerOrNot(db.rows, acting.value);
    }
    if target.Some? {
      OwnerOrNot(db.rows, target.value);
    }
    OwnerRow(db.rows, e.org, e.actor);
    if e.actor in owners {
      AtMostOne(owners, e.actor);
    }
    if owners - {Canon(e.target)} == {} {
      assert owners == {Canon(e.target)};
      OwnerRow(db.rows, e.org, Canon(e.target));
    }
  }

  lemma RemovalLeavesAnOwner(db: Database, e: Event)
    requires Tables(db) && Enabled(World(db, map[], true), e) && e.Remove? && Owners(db.rows, e.org) != {}
    ensures OwnersNext(db, e, e.org) != {}
  {
    hide Canon, IdLike, Lookup, Owners, Filter;
    if Allowed(db, e) {
      var t := TargetRow(db, e);
      OwnerRowsAreOwners(db.rows, e.org);
      OwnerOrNot(db.rows, t);
      var owners := Owners(db.rows, e.org);
      if t.userId in owners {
        AtMostOne(owners, t.userId);
      }
    }
  }

  /** A step leaves every organization an owner, unless it is exactly that one role change. */
  lemma StepKeepsOwnedIff(db: Database, e: Event)
    requires Tables(db) && Owned(db) && Enabled(World(db, map[], true), e)
    ensures Owned(DbStep(db, e)) <==> !GivesUpUnseen(db, e)
  {
    hide Canon, IdLike, Lookup, Owners, Filter, Tables, Allowed, GivesUpUnseen;
    var after := DbStep(db, e);
    forall o {
      OwnersStep(db, e, o);
    }
    OrgsStep(db, e);
    if GivesUpUnseen(db, e) {
      UnseenIsAllowed(db, e);
    }
    if e.SetRole? && Allowed(db, e) {
      var t := TargetRow(db, e);
      OrgOfRow(db, t);
      RoleChangeOrphansIff(db, e);
    } else if e.Remove? && Allowed(db, e) {
      var t := TargetRow(db, e);
      OrgOfRow(db, t);
      RemovalLeavesAnOwner(db, e);
    }
  }

  lemma OrgOfRow(db: Database, r: Row)
    requires Tables(db) && r in db.rows
    ensures r.orgId in db.orgs
  {
  }

  lemma OrgsStep(db: Database, e: Event)
    ensures DbStep(db, e).orgs.Keys ==
            if e.CreateOrg? && Allowed(db, e) then db.orgs.Keys + {e.newOrg} else db.orgs.Keys
  {
  }

  lemma UnseenIsAllowed(db: Database, e: Event)
    requires Tables(db) && Enabled(World(db, map[], true), e) && GivesUpUnseen(db, e)
    ensures e.SetRole? && Allowed(db, e)
  {
    hide Canon, IdLike, Filter, Owners;
    RoleChangeOrphansIff(db, e);
  }

  /** A step by someone who is not an owner there never changes who owns an organization. */
  lemma NonOwnersCannotChangeOwners(db: Database, e: Event, org: string)
    requires Tables(db) && Enabled(World(db, map[], true), e)
    requires org in db.orgs && (e.Expire? || e.actor !in Owners(db.rows, org))
    ensures Owners(DbStep(db, e).rows, org) == Owners(db.rows, org)
  {
    hide Canon, IdLike, Lookup, Owners, Filter, Tables;
    OwnersStep(db, e, org);
    if (e.SetRole? || e.Remove?) && Allowed(db, e) && org == e.org {
      var a := GuardRow(db, e.actor, org, true);
      var t := TargetRow(db, e);
      DistinctRows(db);
      OwnerOrNot(db.rows, a);
      OwnerOrNot(db.rows, t);
    }
  }

  lemma DistinctRows(db: Database)
    requires Tables(db)
    ensures Distinct(db.rows)
  {
  }

  // ---- Caches ----

  lemma KeysApart(user: string, suffix: string, other: string, suffix': string)
    requires PlainPart(user) && PlainPart(suffix) && PlainPart(other) && PlainPart(suffix')
    ensures MembersKey(user) == MembersKey(other) <==> user == other
    ensures OrgKey(user, suffix) == OrgKey(other, suffix') <==> user == other && suffix == suffix'
    ensures MembersKey(user) != OrgKey(other, suffix')
  {
    BuildKeyInjective(["cache", "members", user, "list"], ["cache", "members", other, "list"]);
    BuildKeyInjective(["cache", "org", user, suffix], ["cache", "org", other, suffix']);
    BuildKeyInjective(["cache", "members", user, "list"], ["cache", "org", other, suffix']);
    assert ["cache", "members", user, "list"][1] != ["cache", "org", other, suffix'][1];
    assert ["cache", "members", user, "list"][2] == user && ["cache", "members", other, "list"][2] == other;
    assert ["cache", "org", user, suffix][2..] == [user, suffix];
    assert ["cache", "org", other, suffix'][2..] == [other, suffix'];
  }

  /** The patterns of the invalidation reach exactly the keys of their organization or user. */
  lemma PatternsReach(org: string, user: string, other: string, suffix: string)
    requires PlainPart(org) && PlainPart(user) && PlainPart(other) && PlainPart(suffix)
    ensures Glob(MembersPattern(org), MembersKey(other)) <==> org == other
    ensures Glob(OrgPattern(user), OrgKey(other, suffix)) <==> user == other
  {
    var m, o := ["cache", "members", org], ["cache", "org", user];
    assert m + ["*"] == ["cache", "members", org, "*"] && o + ["*"] == ["cache", "org", user, "*"];
    PatternHitsBelow(m, ["cache", "members", other, "list"]);
    PatternHitsBelow(o, ["cache", "org", other, suffix]);
    assert ["cache", "members", other, "list"][2] == other && ["cache", "org", other, suffix][2] == other;
    assert m[2] == org && o[2] == user;
    assert m < ["cache", "members", other, "list"] <==> org == other;
    assert o < ["cache", "org", other, suffix] <==> user == other;
  }

  lemma PatternsApart(org: string, user: string, suffix: string)
    requires PlainPart(org) && PlainPart(user) && PlainPart(suffix)
    ensures !Glob(MembersPattern(org), OrgKey(user, suffix))
  {
    var m := ["cache", "members", org];
    assert m + ["*"] == ["cache", "members", org, "*"];
    PatternHitsBelow(m, ["cache", "org", user, suffix]);
    assert m[1] != ["cache", "org", user, suffix][1];
  }

  ghost predicate MembersFresh(db: Database, cache: map<string, Cached>) {
    forall org | IdLike(org) && MembersKey(org) in cache ::
      org in db.orgs && cache[MembersKey(org)] == MembersRead(db, org, 1, 20)
  }

  ghost predicate ListsFresh(db: Database, cache: map<string, Cached>) {
    forall user | IdLike(user) && OrgKey(user, "list") in cache ::
      Canon(user) == user && cache[OrgKey(user, "list")] == OrgsRead(db, user, 1, 20)
  }

  ghost predicate RecordFresh(db: Database, cache: map<string, Cached>, user: string, org: string) {
    OrgKey(user, org) in cache ==>
      && Canon(user) == user && Lookup(db.rows, user, org).Some?
      && cache[OrgKey(user, org)] == Record(OrgViewOf(db.orgs, Lookup(db.rows, user, org).value))
  }

  ghost predicate RecordsFresh(db: Database, cache: map<string, Cached>) {
    forall user, org | IdLike(user) && IdLike(org) :: RecordFresh(db, cache, user, org)
  }

  /** Every cached list and record is what a read of the tables would return now. */
  ghost predicate Coherent(db: Database, cache: map<string, Cached>) {
    MembersFresh(db, cache) && ListsFresh(db, cache) && RecordsFresh(db, cache)
  }

  /** Nothing but the given user's membership in the given organization differs. */
  ghost predicate OnlyTouches(db: Database, after: Database, user: string, org: string) {
    && after.users == db.users
    && (forall o | o in db.orgs :: o in after.orgs && after.orgs[o] == db.orgs[o])
    && (forall o | o in db.orgs && o != org :: Filter(after.rows, InOrg(o)) == Filter(db.rows, InOrg(o)))
    && (forall u | u != user :: Filter(after.rows, OfUser(u)) == Filter(db.rows, OfUser(u)))
    && (forall u, o | u != user :: Filter(after.rows, At(u, o)) == Filter(db.rows, At(u, o)))
  }

  /** None of the user's or the organization's entries is left, and no entry is new. */
  ghost predicate Invalidated(cache: map<string, Cached>, after: map<string, Cached>, user: string, org: string) {
    && after.Keys <= cache.Keys && (forall k | k in after :: after[k] == cache[k])
    && MembersKey(org) !in after
    && (forall suffix | PlainPart(suffix) :: OrgKey(user, suffix) !in after)
  }

  lemma SameOrgViews(orgs: map<string, Org>, after: map<string, Org>, rows: seq<Row>)
    requires forall o | o in orgs :: o in after && after[o] == orgs[o]
    requires forall r | r in rows :: r.orgId in orgs
    ensures OrgViewsOf(after, rows) == OrgViewsOf(orgs, rows)
  {
    assert forall i | 0 <= i < |rows| :: rows[i] in rows;
  }

  lemma SameOrgsRead(db: Database, after: Database, user: string, org: string, u: string)
    requires Tables(db) && OnlyTouches(db, after, user, org) && u != user
    ensures OrgsRead(after, u, 1, 20) == OrgsRead(db, u, 1, 20)
  {
    hide Canon, IdLike, BuildOffsetPagination;
    var rows := Filter(db.rows, OfUser(u));
    forall r | r in PageOf(rows, 1, 20) ensures r.orgId in db.orgs {
      FilterMembers(db.rows, OfUser(u), r);
    }
    SameOrgViews(db.orgs, after.orgs, PageOf(rows, 1, 20));
  }

  lemma SameRecord(db: Database, after: Database, user: string, org: string, u: string, o: string)
    requires Tables(db) && OnlyTouches(db, after, user, org) && Canon(u) != user
    ensures Lookup(after.rows, u, o) == Lookup(db.rows, u, o)
    ensures var r := Lookup(db.rows, u, o); r.Some? ==> OrgViewOf(after.orgs, r.value) == OrgViewOf(db.orgs, r.value)
  {
    hide Canon, IdLike;
    assert Filter(after.rows, At(Canon(u), Canon(o))) == Filter(db.rows, At(Canon(u), Canon(o)));
    LookupFinds(db.rows, u, o);
  }

  lemma InvalidationKeepsCoherent(db: Database, after: Database, cache: map<string, Cached>, left: map<string, Cached>,
                                  user: string, org: string)
    requires Tables(db) && Coherent(db, cache) && KnownId(user)
    requires OnlyTouches(db, after, user, org) && Invalidated(cache, left, user, org)
    ensures Coherent(after, left)
  {
    hide Canon, IdLike, Lookup, OrgsRead, OrgViewOf, Tables, PlainPart;
    assert PlainPart(user) && PlainPart("list") && forall id | IdLike(id) :: PlainPart(id) by {
      ListIsPlain();
      PlainIds();
    }
    forall o | IdLike(o) && MembersKey(o) in left
      ensures o in after.orgs && left[MembersKey(o)] == MembersRead(after, o, 1, 20)
    {
    }
    forall u | IdLike(u) && OrgKey(u, "list") in left
      ensures Canon(u) == u && left[OrgKey(u, "list")] == OrgsRead(after, u, 1, 20)
    {
      SameOrgsRead(db, after, user, org, u);
    }
    forall u, o | IdLike(u) && IdLike(o) ensures RecordFresh(after, left, u, o) {
      if OrgKey(u, o) in left {
        assert RecordFresh(db, cache, u, o);
        SameRecord(db, after, user, org, u, o);
      }
    }
  }

  lemma ListIsPlain()
    ensures PlainPart("list")
  {
  }

  lemma PlainIds()
    ensures forall id | IdLike(id) :: PlainPart(id)
  {
  }

  lemma AddTouches(db: Database, r: Row)
    requires Tables(db)
    ensures OnlyTouches(db, db.(rows := db.rows + [r]), r.userId, r.orgId)
  {
    hide Tables;
    forall keep: Row -> bool {
      FilterSnoc(db.rows, r, keep);
    }
  }

  lemma CreateTouches(db: Database, org: Org, r: Row)
    requires Tables(db) && org.id !in db.orgs && r.orgId == org.id
    ensures OnlyTouches(db, db.(orgs := db.orgs[org.id := org], rows := db.rows + [r]), r.userId, r.orgId)
  {
    hide Tables;
    AddTouches(db, r);
  }

  lemma RoleTouches(db: Database, t: Row, role: Role)
    requires Tables(db) && t in db.rows
    ensures OnlyTouches(db, db.(rows := WithRole(db.rows, t.id, role)), t.userId, t.orgId)
  {
    hide WithRole, Canon, IdLike;
    forall r | r in db.rows && r.id == t.id ensures r == t {
      SameRow(db.rows, r, t);
    }
    forall o | o != t.orgId {
      FilterWithRole(db.rows, t.id, role, InOrg(o));
    }
    forall u | u != t.userId {
      FilterWithRole(db.rows, t.id, role, OfUser(u));
    }
    forall u, o | u != t.userId {
      FilterWithRole(db.rows, t.id, role, At(u, o));
    }
  }

  lemma RemovalTouches(db: Database, t: Row)
    requires Tables(db) && t in db.rows
    ensures OnlyTouches(db, db.(rows := Without(db.rows, t.id)), t.userId, t.orgId)
  {
    hide Without, Canon, IdLike;
    forall r | r in db.rows && r.id == t.id ensures r == t {
      SameRow(db.rows, r, t);
    }
    forall o | o != t.orgId {
      FilterWithout(db.rows, t.id, InOrg(o));
    }
    forall u | u != t.userId {
      FilterWithout(db.rows, t.id, OfUser(u));
    }
    forall u, o | u != t.userId {
      FilterWithout(db.rows, t.id, At(u, o));
    }
  }

  lemma SweepsInvalidate(w: World, org: string, user: string)
    requires w.ready && PlainPart(org) && PlainPart(user)
    ensures Invalidated(w.cache, Invalidate(w, org, user).cache, user, org)
    ensures MembersKey(org) !in w.cache ==> Invalidated(w.cache, Sweep(w, OrgPattern(user)).cache, user, org)
  {
    hide MembersKey, OrgKey, MembersPattern, OrgPattern, Glob, PlainPart;
    PatternsReach(org, user, org, user);
    forall suffix | PlainPart(suffix) ensures Glob(OrgPattern(user), OrgKey(user, suffix)) {
      PatternsReach(org, user, user, suffix);
    }
  }

  /** The database and the id are spelled alike, so the invalidation reaches the right entries. */
  predicate SpelledAsStored(e: Event) {
    e.SetRole? || e.Remove? ==> Canon(e.target) == e.target
  }

  ghost predicate Consistent(w: World) {
    Tables(w.db) && w.ready && Coherent(w.db, w.cache)
  }

  /** A permitted write touches one membership and invalidates what depends on it. */
  lemma WriteInvalidates(w: World, e: Event) returns (user: string, org: string)
    requires Consistent(w) && Enabled(w, e) && SpelledAsStored(e) && Allowed(w.db, e)
    requires e.CreateOrg? || e.Add? || e.SetRole? || e.Remove?
    ensures KnownId(user) && OnlyTouches(w.db, DbStep(w.db, e), user, org)
    ensures Invalidated(w.cache, Step(w, e).0.cache, user, org)
  {
    hide Lookup, Canon, WithRole, Without, RoleRefusal, RemovalRefusal, UserByEmail, OnlyTouches, Invalidated,
      Invalidate,
      Sweep, MembersKey, OrgKey, OrgPattern, ViewOf, PlainPart, ListsFresh, RecordsFresh;
    match e
    case CreateOrg(actor, name, newOrg, rowId, at) =>
      user, org := actor, newOrg;
      CreateTouches(w.db, Org(newOrg, name), Row(rowId, actor, newOrg, OWNER, at));
      SweepsInvalidate(w, newOrg, actor);
      CreateSweeps(w, e);
    case Add(actor, org', email, role, rowId, at) =>
      var u := UserByEmail(w.db.users, email).value.id;
      user, org := u, org';
      assert KnownId(u);
      AddTouches(w.db, Row(rowId, u, org', role, at));
      SweepsInvalidate(w, org', u);
      AddSweeps(w, e);
    case SetRole(actor, org', target, role) =>
      var t := TargetRow(w.db, e);
      user, org := target, org';
      RoleTouches(w.db, t, role);
      SweepsInvalidate(w, org', target);
      ChangeSweeps(w, e);
    case Remove(actor, org', target) =>
      var t := TargetRow(w.db, e);
      user, org := target, org';
      RemovalTouches(w.db, t);
      SweepsInvalidate(w, org', target);
      ChangeSweeps(w, e);
  }

  lemma CreateSweeps(w: World, e: Event)
    requires Enabled(w, e) && e.CreateOrg?
    ensures Step(w, e).0.cache == Sweep(w, OrgPattern(e.actor)).cache
  {
    hide Matching, OrgPattern;
  }

  lemma AddSweeps(w: World, e: Event)
    requires Enabled(w, e) && e.Add? && Allowed(w.db, e)
    ensures UserByEmail(w.db.users, e.email).Some?
    ensures Step(w, e).0.cache == Invalidate(w, e.org, UserByEmail(w.db.users, e.email).value.id).cache
  {
    hide Matching, OrgPattern, MembersPattern, Lookup, ViewOf, UserByEmail;
  }

  lemma ChangeSweeps(w: World, e: Event)
    requires Enabled(w, e) && (e.SetRole? || e.Remove?) && Allowed(w.db, e)
    ensures Step(w, e).0.cache == Invalidate(w, e.org, e.target).cache
  {
    hide Matching, OrgPattern, MembersPattern, Lookup, ViewOf, RoleRefusal, RemovalRefusal, WithRole, Without;
  }

  // ---- Reads ----

  lemma ShowMembersIsFresh(w: World, org: string, q: Query)
    requires Consistent(w) && IdLike(org) && org in w.db.orgs
    ensures var (after, shown) := ListMembers(w, org, q);
      && (shown == match ParsePaginationParams(q)
                   case ByCursor(_, _) => Err(InvalidSkip)
                   case ByPage(limit, page) => Ok(MembersRead(w.db, org, page, limit)))
      && after.db == w.db && Coherent(w.db, after.cache)
  {
    hide MembersRead, OrgsRead, MembersKey, OrgKey, Lookup, Canon, OrgViewOf, Tables;
    PlainIds();
    ListIsPlain();
    forall other, suffix | PlainPart(other) && PlainPart(suffix) {
      KeysApart(org, suffix, other, suffix);
    }
    var after := ListMembers(w, org, q).0;
    forall u, o | IdLike(u) && IdLike(o) ensures RecordFresh(w.db, after.cache, u, o) {
      assert RecordFresh(w.db, w.cache, u, o);
    }
  }

  lemma ShowOrgsIsFresh(w: World, user: string, q: Query)
    requires Consistent(w) && KnownId(user)
    ensures var (after, shown) := ListForUser(w, user, q);
      && (shown == match ParsePaginationParams(q)
                   case ByCursor(_, _) => Err(InvalidSkip)
                   case ByPage(limit, page) => Ok(OrgsRead(w.db, user, page, limit)))
      && after.db == w.db && Coherent(w.db, after.cache)
  {
    hide MembersRead, OrgsRead, MembersKey, OrgKey, Lookup, Canon, OrgViewOf, Tables;
    PlainIds();
    ListIsPlain();
    forall other, suffix | PlainPart(other) && PlainPart(suffix) {
      KeysApart(other, suffix, user, "list");
    }
    var after := ListForUser(w, user, q).0;
    forall u, o | IdLike(u) && IdLike(o) ensures RecordFresh(w.db, after.cache, u, o) {
      assert RecordFresh(w.db, w.cache, u, o);
    }
  }

  lemma ShowOrgIsFresh(w: World, user: string, org: string)
    requires Consistent(w) && KnownId(user) && IdLike(org)
    ensures var (after, shown) := GetById(w, org, user);
      && (shown == match Lookup(w.db.rows, user, org)
                   case None => Err(AccessDenied)
                   case Some(row) => Ok(Record(OrgViewOf(w.db.orgs, row))))
      && after.db == w.db && Coherent(w.db, after.cache)
  {
    hide MembersRead, OrgsRead, MembersKey, OrgKey, Lookup, Canon, OrgViewOf, Tables;
    PlainIds();
    ListIsPlain();
    assert RecordFresh(w.db, w.cache, user, org);
    forall other, suffix | PlainPart(other) && PlainPart(suffix) {
      KeysApart(other, suffix, user, org);
    }
    var after := GetById(w, org, user).0;
    forall u, o | IdLike(u) && IdLike(o) ensures RecordFresh(w.db, after.cache, u, o) {
      assert RecordFresh(w.db, w.cache, u, o);
    }
  }

  // ---- Runs ----

  lemma StepKeepsConsistent(w: World, e: Event)
    requires Consistent(w) && Enabled(w, e) && SpelledAsStored(e)
    ensures Consistent(Step(w, e).0)
  {
    hide Tables, Coherent, Allowed, KnownId, ListMembers, ListForUser, GetById, Lookup, DbStep, Invalidated,
      OnlyTouches;
    StepActsOnTables(w, e);
    StepKeepsTables(w.db, e);
    if e.CreateOrg? || e.Add? || e.SetRole? || e.Remove? {
      if Allowed(w.db, e) {
        var user, org := WriteInvalidates(w, e);
        InvalidationKeepsCoherent(w.db, DbStep(w.db, e), w.cache, Step(w, e).0.cache, user, org);
      } else {
        RefusalChangesNothing(w, e);
      }
    } else {
      ReadKeepsCoherent(w, e);
    }
  }

  lemma RefusalChangesNothing(w: World, e: Event)
    requires Enabled(w, e) && !Allowed(w.db, e)
    ensures Step(w, e).0 == w && Step(w, e).1.Denied?
  {
    hide Lookup, RoleRefusal, RemovalRefusal;
  }

  lemma ReadKeepsCoherent(w: World, e: Event)
    requires Consistent(w) && Enabled(w, e) && (e.ShowMembers? || e.ShowOrgs? || e.ShowOrg? || e.Expire?)
    ensures Step(w, e).0.db == w.db && Coherent(w.db, Step(w, e).0.cache)
  {
    hide Tables, Coherent, ListMembers, ListForUser, GetById, Lookup, IdLike, Canon;
    match e
    case ShowMembers(actor, org, q) =>
      if Guard(w.db.rows, actor, org, false).Ok? {
        var a := GuardRow(w.db, actor, org, false);
        ShowMembersIsFresh(w, org, q);
      }
    case ShowOrgs(actor, q) =>
      ShowOrgsIsFresh(w, actor, q);
    case ShowOrg(actor, org) =>
      ShowOrgIsFresh(w, actor, org);
    case Expire(keys) =>
      ExpiryKeepsCoherent(w.db, w.cache, keys);
  }

  lemma ExpiryKeepsCoherent(db: Database, cache: map<string, Cached>, keys: set<string>)
    requires Coherent(db, cache)
    ensures Coherent(db, cache - keys)
  {
    hide MembersRead, OrgsRead, MembersKey, OrgKey, Lookup, Canon, OrgViewOf, IdLike;
    forall u, o | IdLike(u) && IdLike(o) ensures RecordFresh(db, cache - keys, u, o) {
      assert RecordFresh(db, cache, u, o);
    }
  }

  /** In a consistent state every answer to a read, cached or not, is what the tables say. */
  lemma ReadsAreFresh(w: World, e: Event)
    requires Consistent(w) && Enabled(w, e)
    ensures var reply := Step(w, e).1;
      match e
      case ShowMembers(actor, org, q) =>
        if Lookup(w.db.rows, actor, org).None? then reply == Denied(AccessDenied)
        else (
          match ParsePaginationParams(q)
          case ByCursor(_, _) => reply == Denied(InvalidSkip)
          case ByPage(limit, page) => reply == Shown(MembersRead(w.db, org, page, limit)))
      case ShowOrgs(actor, q) => (
        match ParsePaginationParams(q)
        case ByCursor(_, _) => reply == Denied(InvalidSkip)
        case ByPage(limit, page) => reply == Shown(OrgsRead(w.db, actor, page, limit)))
      case ShowOrg(actor, org) => (
        match Lookup(w.db.rows, actor, org)
        case None => reply == Denied(AccessDenied)
        case Some(row) => reply == Shown(Record(OrgViewOf(w.db.orgs, row))))
      case _ => true
  {
    hide Tables, Coherent, ListMembers, ListForUser, GetById, Lookup, IdLike, Canon, MembersRead, OrgsRead, OrgViewOf;
    match e
    case ShowMembers(actor, org, q) =>
      if Guard(w.db.rows, actor, org, false).Ok? {
        var a := GuardRow(w.db, actor, org, false);
        ShowMembersIsFresh(w, org, q);
      }
    case ShowOrgs(actor, q) =>
      ShowOrgsIsFresh(w, actor, q);
    case ShowOrg(actor, org) =>
      ShowOrgIsFresh(w, actor, org);
    case _ =>
  }

  // ---- What a step stores ----

  /** Tables that agree on one user and organization answer lookups about them alike. */
  lemma SameAnswer(rows: seq<Row>, after: seq<Row>, user: string, org: string)
    requires Distinct(rows) && Distinct(after) && Canon(user) == user && Canon(org) == org
    requires forall r: Row | r.userId == user && r.orgId == org :: r in after <==> r in rows
    ensures Lookup(after, user, org) == Lookup(rows, user, org)
  {
    hide Canon, Lookup;
    LookupFinds(rows, user, org);
    LookupFinds(after, user, org);
    var a, b := Lookup(rows, user, org), Lookup(after, user, org);
    if a.Some? && b.Some? {
      SameRow(rows, a.value, b.value);
    }
  }

  /** The membership a request is about, and its row once the request is granted. */
  function Written(db: Database, e: Event): (w: (string, string, Option<Row>))
    requires (e.CreateOrg? || e.Add? || e.SetRole? || e.Remove?) && Allowed(db, e)
  {
    match e
    case CreateOrg(actor, _, newOrg, rowId, at) => (actor, newOrg, Some(Row(rowId, actor, newOrg, OWNER, at)))
    case Add(_, org, email, role, rowId, at) =>
      var user := UserByEmail(db.users, email).value;
      (user.id, org, Some(Row(rowId, user.id, org, role, at)))
    case SetRole(_, org, target, role) => (Canon(target), org, Some(Lookup(db.rows, target, org).value.(role := role)))
    case Remove(_, org, target) => (Canon(target), org, None)
  }

  lemma RowsWritten(db: Database, e: Event, r: Row)
    requires Tables(db) && Enabled(World(db, map[], true), e) && Allowed(db, e)
    requires e.CreateOrg? || e.Add? || e.SetRole? || e.Remove?
    ensures var (user, org, row) := Written(db, e);
      && (r.userId == user && r.orgId == org ==> (r in DbStep(db, e).rows <==> row == Some(r)))
      && (r.userId != user || r.orgId != org ==> (r in DbStep(db, e).rows <==> r in db.rows))
  {
    hide Canon, Lookup, WithRole, Without, IdLike, RoleRefusal, RemovalRefusal, Guard;
    match e
    case CreateOrg(actor, name, newOrg, rowId, at) =>
      NewOrgAdmits(db, newOrg, Row(rowId, actor, newOrg, OWNER, at), Org(newOrg, name));
    case Add(actor, org, email, role, rowId, at) =>
      var a := GuardRow(db, actor, org, true);
      AddIsAdmitted(db, org, email, rowId, role, at);
    case SetRole(actor, org, target, role) =>
      var t := TargetRow(db, e);
      RowsAfterRole(db.rows, t, role, r);
      if r in db.rows && (r.id == t.id || (r.userId == t.userId && r.orgId == t.orgId)) {
        SameRow(db.rows, r, t);
      }
    case Remove(actor, org, target) =>
      var t := TargetRow(db, e);
      FilterMembers(db.rows, NotId(t.id), r);
      assert Without(db.rows, t.id) == Filter(db.rows, NotId(t.id)) by {
        WithoutIsFilter(db.rows, t.id);
      }
      if r in db.rows && (r.id == t.id || (r.userId == t.userId && r.orgId == t.orgId)) {
        SameRow(db.rows, r, t);
      }
  }

  lemma WithoutIsFilter(rows: seq<Row>, id: string)
    ensures Without(rows, id) == Filter(rows, NotId(id))
  {
  }

  /** A granted request writes the one membership it is about, with the role asked for, and leaves
      every other membership as it was; a refused one changes none. */
  lemma LookupAfterStep(db: Database, e: Event, user: string, org: string)
    requires Tables(db) && Enabled(World(db, map[], true), e) && Canon(user) == user && Canon(org) == org
    ensures Lookup(DbStep(db, e).rows, user, org) ==
            if (e.CreateOrg? || e.Add? || e.SetRole? || e.Remove?) && Allowed(db, e)
               && user == Written(db, e).0 && org == Written(db, e).1
              then Written(db, e).2
            else Lookup(db.rows, user, org)
  {
    hide Canon, Lookup, IdLike, Allowed, Written, DbStep;
    StepKeepsTables(db, e);
    if (e.CreateOrg? || e.Add? || e.SetRole? || e.Remove?) && Allowed(db, e) {
      var after := DbStep(db, e).rows;
      forall r {
        RowsWritten(db, e, r);
      }
      if user == Written(db, e).0 && org == Written(db, e).1 {
        LookupFinds(after, user, org);
        var found := Lookup(after, user, org);
        if found.None? {
          NothingWritten(after, Written(db, e).2, user, org);
          WrittenFits(db, e);
        }
      } else {
        SameAnswer(db.rows, after, user, org);
      }
    } else {
      NothingStepped(db, e);
    }
  }

  lemma NothingWritten(after: seq<Row>, row: Option<Row>, user: string, org: string)
    requires forall r | r in after :: r.userId != user || r.orgId != org
    ensures row.Some? && row.value.userId == user && row.value.orgId == org ==> row.value !in after
  {
  }

  lemma WrittenFits(db: Database, e: Event)
    requires Tables(db) && Enabled(World(db, map[], true), e) && Allowed(db, e)
    requires e.CreateOrg? || e.Add? || e.SetRole? || e.Remove?
    ensures var (user, org, row) := Written(db, e); row.Some? ==> row.value.userId == user && row.value.orgId == org
  {
    hide Canon, Lookup, IdLike, RoleRefusal, RemovalRefusal, Guard;
    if e.SetRole? {
      var t := TargetRow(db, e);
    }
  }

  lemma NothingStepped(db: Database, e: Event)
    requires !((e.CreateOrg? || e.Add? || e.SetRole? || e.Remove?) && Allowed(db, e))
    ensures DbStep(db, e).rows == db.rows
  {
  }

  // ---- What the lists show ----

  lemma {:induction false} UserIsFound(users: seq<User>, u: User)
    requires u in users && forall i, j | 0 <= i < j < |users| :: users[i].id != users[j].id
    ensures UserById(users, u.id) == u
  {
    if users[0] == u {
    } else {
      var i :| 0 <= i < |users| && users[i] == u;
      assert users[0].id != users[i].id;
      UserIsFound(users[1..], u);
    }
  }

  /** Each line of a page of members is one membership of that organization, in order, with its own
      role and the email and name of its own user. */
  lemma MembersReadShowsRows(db: Database, org: string, page: nat, limit: nat, i: nat, u: User)
    requires page >= 1 && limit >= 1 && i < |MembersRead(db, org, page, limit).members|
    requires u in db.users && forall i, j | 0 <= i < j < |db.users| :: db.users[i].id != db.users[j].id
    requires MembersRead(db, org, page, limit).members[i].userId == u.id
    requires forall r | r in db.rows :: exists v :: v in db.users && v.id == r.userId
    ensures var m, rows := MembersRead(db, org, page, limit).members[i], Filter(db.rows, InOrg(org));
      var k := Skipped(page, limit) + i;
      && k < |rows| && rows[k] in db.rows && rows[k].orgId == org
      && m == MemberView(rows[k].id, u.id, u.email, u.name, rows[k].role, rows[k].joinedAt)
  {
    hide UserById;
    var rows := Filter(db.rows, InOrg(org));
    var r := PageOf(rows, page, limit)[i];
    assert r == rows[Skipped(page, limit) + i];
    FilterMembers(db.rows, InOrg(org), r);
    var v :| v in db.users && v.id == r.userId;
    UserIsFound(db.users, v);
    UserIsFound(db.users, u);
  }
}

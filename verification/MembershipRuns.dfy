/** Exactly which requests break what the services are meant to keep, and what that says about whole
    runs: both failures come from a target id that is not spelled as the database spells it. */
module MembershipRuns {
  import opened Outcomes
  import opened Pagination
  import opened RedisStore
  import opened Membership
  import opened MembershipSafety

  // ---- Ids spelled otherwise ----

  /** Why the spelling matters for owners: an organization's only owner makes themselves an admin, with
      their id in capitals. */
  lemma OddSpellingOrphans()
    ensures var db := Database([User("a1", "a@example.org", "A")], map["b2" := Org("b2", "B")],
                               [Row("c3", "a1", "b2", OWNER, 0)]);
      var e := SetRole("a1", "b2", "A1", ADMIN);
      Tables(db) && Owned(db) && Enabled(World(db, map[], true), e) && !Owned(DbStep(db, e))
  {
    hide DbStep;
    var row := Row("c3", "a1", "b2", OWNER, 0);
    var db := Database([User("a1", "a@example.org", "A")], map["b2" := Org("b2", "B")], [row]);
    var e := SetRole("a1", "b2", "A1", ADMIN);
    assert Canon("a1") == "a1" && Canon("b2") == "b2" && Canon("A1") == "a1";
    assert row in db.rows && Owners(db.rows, "b2") == {"a1"};
    StepKeepsOwnedIff(db, e);
  }

  /** Entries of other users than the one spelled in the request stay. */
  lemma EntrySurvives(w: World, e: Event, user: string, suffix: string)
    requires w.ready && Enabled(w, e) && (e.SetRole? || e.Remove?) && Allowed(w.db, e)
    requires PlainPart(user) && PlainPart(suffix) && user != e.target && OrgKey(user, suffix) in w.cache
    ensures var key, after := OrgKey(user, suffix), Step(w, e).0.cache; key in after && after[key] == w.cache[key]
  {
    hide Allowed, Step, Glob, MembersPattern, OrgPattern, OrgKey, PlainPart, Canon;
    ChangeSweeps(w, e);
    PatternsReach(e.org, e.target, user, suffix);
    PatternsApart(e.org, user, suffix);
  }

  lemma EntriesOnlyGo(w: World, e: Event)
    requires w.ready && Enabled(w, e) && (e.SetRole? || e.Remove?) && Allowed(w.db, e)
    ensures var after := Step(w, e).0.cache;
      after.Keys <= w.cache.Keys && (forall k | k in after :: after[k] == w.cache[k]) && MembersKey(e.org) !in after
  {
    hide Allowed, Step, MembersKey, OrgKey, Canon, Invalidate;
    ChangeSweeps(w, e);
    SweepsInvalidate(w, e.org, e.target);
  }

  /** Why the spelling matters for caches: after a change of role, a cached record of the target shows
      the new role exactly when the request spelled the id as stored. */
  lemma CachedRoleIsCurrentIff(w: World, e: Event)
    requires Consistent(w) && Enabled(w, e) && e.SetRole? && Allowed(w.db, e)
    requires Lookup(w.db.rows, e.target, e.org).Some? && Lookup(w.db.rows, e.target, e.org).value.role != e.role
    requires IdLike(Canon(e.target)) && OrgKey(Canon(e.target), e.org) in w.cache
    ensures RecordFresh(DbStep(w.db, e), Step(w, e).0.cache, Canon(e.target), e.org) <==> e.target == Canon(e.target)
  {
    hide Allowed, Step, OrgKey, PlainPart, Canon, Tables, MembersFresh, ListsFresh, Lookup, IdLike;
    var user := Canon(e.target);
    StepActsOnTables(w, e);
    StepKeepsTables(w.db, e);
    if e.target == user {
      StepKeepsConsistent(w, e);
    } else {
      assert RecordFresh(w.db, w.cache, user, e.org);
      PlainIds();
      EntrySurvives(w, e, user, e.org);
      var t := TargetRow(w.db, e);
      SameLookup(w.db.rows, e.target, user, e.org);
      RoleAfterChange(w.db, e, t);
    }
  }

  lemma SameLookup(rows: seq<Row>, user: string, other: string, org: string)
    requires Canon(user) == Canon(other)
    ensures Lookup(rows, user, org) == Lookup(rows, other, org)
  {
  }

  lemma RoleAfterChange(db: Database, e: Event, t: Row)
    requires Tables(db) && t in db.rows && e.SetRole? && Allowed(db, e) && Lookup(db.rows, e.target, e.org) == Some(t)
    requires t.userId == Canon(e.target) && t.orgId == e.org && Canon(e.org) == e.org
    ensures Canon(t.userId) == t.userId
    ensures var r := Lookup(DbStep(db, e).rows, t.userId, e.org); r.Some? && r.value.role == e.role
  {
    hide Allowed, Canon, Lookup, WithRole, IdLike;
    var after := WithRole(db.rows, t.id, e.role);
    LookupFinds(after, t.userId, e.org);
    forall r {
      RowsAfterRole(db.rows, t, e.role, r);
    }
    var r := Lookup(after, t.userId, e.org);
    if r.Some? && r.value in db.rows {
      SameRow(db.rows, r.value, t);
    }
    assert t.(role := e.role) in after;
  }

  // ---- Exactly which requests leave a stale entry ----

  /** A record of the organization, under whatever spelling of its id, is cached for the user. */
  ghost predicate RecordCached(cache: map<string, Cached>, user: string, org: string) {
    exists o :: IdLike(o) && Canon(o) == org && OrgKey(user, o) in cache
  }

  ghost predicate OnFirstPage(db: Database, user: string, org: string) {
    exists r :: r in PageOf(Filter(db.rows, OfUser(user)), 1, 20) && r.orgId == org
  }

  /** A granted removal or role change whose target id is not spelled as stored, while an entry of the
      target that shows the membership is cached. All of it can be checked before the request. */
  ghost predicate LeavesStale(w: World, e: Event) {
    && (e.SetRole? || e.Remove?) && Allowed(w.db, e) && Canon(e.target) != e.target
    && var user := Canon(e.target);
    var listed := OrgKey(user, "list") in w.cache;
    if e.Remove? then RecordCached(w.cache, user, e.org) || listed
    else
      && Lookup(w.db.rows, e.target, e.org).Some? && Lookup(w.db.rows, e.target, e.org).value.role != e.role
      && (RecordCached(w.cache, user, e.org) || (listed && OnFirstPage(w.db, user, e.org)))
  }

  lemma {:induction false} WithRoleOfMany(rows: seq<Row>, id: string, role: Role, user: string)
    ensures Filter(WithRole(rows, id, role), OfUser(user)) == WithRole(Filter(rows, OfUser(user)), id, role)
  {
    if rows == [] {
      assert WithRole(rows, id, role) == [];
    } else {
      WithRoleOfMany(rows[1..], id, role, user);
      assert WithRole(rows, id, role)[1..] == WithRole(rows[1..], id, role);
      var rest := Filter(rows[1..], OfUser(user));
      assert WithRole([rows[0]] + rest, id, role) == [WithRole(rows, id, role)[0]] + WithRole(rest, id, role);
    }
  }

  /** A change of role changes the first page of the target's organizations exactly if it shows the
      membership. */
  lemma RoleChangesListIff(db: Database, t: Row, role: Role)
    requires Tables(db) && t in db.rows && t.role != role
    ensures OrgsRead(db.(rows := WithRole(db.rows, t.id, role)), t.userId, 1, 20) == OrgsRead(db, t.userId, 1, 20)
       <==> !OnFirstPage(db, t.userId, t.orgId)
  {
    hide Canon, IdLike, BuildOffsetPagination;
    var mine := Filter(db.rows, OfUser(t.userId));
    WithRoleOfMany(db.rows, t.id, role, t.userId);
    var page, after := PageOf(mine, 1, 20), PageOf(WithRole(mine, t.id, role), 1, 20);
    assert |page| == |after|;
    forall i | 0 <= i < |page|
      ensures page[i] in db.rows && page[i].userId == t.userId
      ensures page[i].id == t.id <==> page[i].orgId == t.orgId
      ensures page[i].id != t.id ==> after[i] == page[i]
      ensures page[i].id == t.id ==> after[i] == t.(role := role) && page[i] == t
    {
      assert page[i] == mine[i] && after[i] == WithRole(mine, t.id, role)[i];
      FilterMembers(db.rows, OfUser(t.userId), mine[i]);
      if mine[i].id == t.id || mine[i].orgId == t.orgId {
        SameRow(db.rows, mine[i], t);
      }
    }
    var views, views' := OrgViewsOf(db.orgs, page), OrgViewsOf(db.orgs, after);
    if OnFirstPage(db, t.userId, t.orgId) {
      var i :| 0 <= i < |page| && page[i].orgId == t.orgId;
      assert views[i].role != views'[i].role;
    } else {
      assert forall i | 0 <= i < |page| :: page[i].orgId != t.orgId by {
        assert forall i | 0 <= i < |page| :: page[i] in page;
      }
      assert views == views';
    }
  }

  lemma {:induction false} FewerWithout(rows: seq<Row>, id: string, keep: Row -> bool)
    ensures |Filter(Without(rows, id), keep)| <= |Filter(rows, keep)|
    ensures (exists r :: r in rows && r.id == id && keep(r)) ==>
              |Filter(Without(rows, id), keep)| < |Filter(rows, keep)|
  {
    if rows == [] {
    } else {
      FewerWithout(rows[1..], id, keep);
      assert rows == [rows[0]] + rows[1..];
    }
  }

  lemma RemovalChangesList(db: Database, t: Row)
    requires t in db.rows
    ensures OrgsRead(db.(rows := Without(db.rows, t.id)), t.userId, 1, 20) != OrgsRead(db, t.userId, 1, 20)
  {
    hide OrgViewsOf, PageOf, PageCount;
    FewerWithout(db.rows, t.id, OfUser(t.userId));
  }

  lemma FewerEntriesCoherent(db: Database, cache: map<string, Cached>, left: map<string, Cached>)
    requires Coherent(db, cache) && left.Keys <= cache.Keys && forall k | k in left :: left[k] == cache[k]
    ensures Coherent(db, left)
  {
    hide MembersRead, OrgsRead, MembersKey, OrgKey, Lookup, Canon, OrgViewOf, IdLike;
    forall u, o | IdLike(u) && IdLike(o) ensures RecordFresh(db, left, u, o) {
      assert RecordFresh(db, cache, u, o);
    }
  }

  /** One user's entries are fresh. */
  ghost predicate UserFresh(db: Database, cache: map<string, Cached>, user: string) {
    && (OrgKey(user, "list") in cache ==> cache[OrgKey(user, "list")] == OrgsRead(db, user, 1, 20))
    && (forall o | IdLike(o) :: RecordFresh(db, cache, user, o))
  }

  /** After a change of one membership that swept the organization's own list, only the entries of
      its user are in question. */
  lemma OneUserDecides(db: Database, after: Database, cache: map<string, Cached>, left: map<string, Cached>,
                       user: string, org: string)
    requires Tables(db) && Coherent(db, cache) && KnownId(user) && OnlyTouches(db, after, user, org)
    requires left.Keys <= cache.Keys && (forall k | k in left :: left[k] == cache[k]) && MembersKey(org) !in left
    ensures Coherent(after, left) <==> UserFresh(after, left, user)
  {
    hide Canon, IdLike, Lookup, OrgsRead, OrgViewOf, Tables;
    if UserFresh(after, left, user) {
      forall u | IdLike(u) && OrgKey(u, "list") in left
        ensures Canon(u) == u && left[OrgKey(u, "list")] == OrgsRead(after, u, 1, 20)
      {
        if u != user {
          SameOrgsRead(db, after, user, org, u);
        }
      }
      forall u, o | IdLike(u) && IdLike(o) ensures RecordFresh(after, left, u, o) {
        if u != user && OrgKey(u, o) in left {
          assert RecordFresh(db, cache, u, o);
          SameRecord(db, after, user, org, u, o);
        }
      }
    }
  }

  lemma CanonTwice(id: string)
    ensures Canon(Canon(id)) == Canon(id)
  {
    forall i | 0 <= i < |id| ensures Canon(Canon(id))[i] == Canon(id)[i] {
      LowerTwice(id[i]);
    }
  }

  lemma LowerTwice(c: char)
    ensures LowerHex(LowerHex(c)) == LowerHex(c)
  {
  }

  /** What the request does to a lookup of its own target, under any spelling of the organization. */
  lemma TargetLookup(db: Database, e: Event, t: Row, o: string)
    requires Tables(db) && Enabled(World(db, map[], true), e) && (e.SetRole? || e.Remove?) && Allowed(db, e)
    requires Lookup(db.rows, e.target, e.org) == Some(t) && t.userId == Canon(e.target)
    ensures Lookup(DbStep(db, e).rows, t.userId, o) ==
            if Canon(o) != e.org then Lookup(db.rows, t.userId, o)
            else if e.Remove? then None else Some(t.(role := e.role))
    ensures Canon(o) == e.org ==> Lookup(db.rows, t.userId, o) == Some(t)
  {
    CanonTwice(e.target);
    CanonTwice(o);
    hide Canon, Lookup, Allowed, DbStep, IdLike;
    SpelledOrgs(db.rows, t.userId, o);
    SpelledOrgs(DbStep(db, e).rows, t.userId, o);
    LookupAfterStep(db, e, t.userId, Canon(o));
    SameLookup(db.rows, e.target, t.userId, e.org);
  }

  lemma SpelledOrgs(rows: seq<Row>, user: string, org: string)
    requires Canon(Canon(org)) == Canon(org)
    ensures Lookup(rows, user, org) == Lookup(rows, user, Canon(org))
  {
  }

  lemma OrgsUntouched(db: Database, e: Event)
    requires e.SetRole? || e.Remove?
    ensures DbStep(db, e).orgs == db.orgs
  {
  }

  /** The target's records after the request, when its entries were not swept. */
  lemma RecordsAfter(w: World, e: Event, t: Row)
    requires Consistent(w) && Enabled(w, e) && (e.SetRole? || e.Remove?) && Allowed(w.db, e)
    requires Lookup(w.db.rows, e.target, e.org) == Some(t) && t.userId == Canon(e.target) && IdLike(t.userId)
    requires e.target != t.userId && (e.SetRole? ==> t.role != e.role)
    ensures (forall o | IdLike(o) :: RecordFresh(DbStep(w.db, e), Step(w, e).0.cache, t.userId, o))
       <==> !RecordCached(w.cache, t.userId, e.org)
  {
    CanonTwice(e.target);
    hide Canon, Lookup, Allowed, DbStep, Step, IdLike, OrgKey, PlainPart, Tables, MembersFresh, ListsFresh;
    PlainIds();
    OrgsUntouched(w.db, e);
    EntriesOnlyGo(w, e);
    var after, left := DbStep(w.db, e), Step(w, e).0.cache;
    forall o | IdLike(o)
      ensures RecordFresh(after, left, t.userId, o) <==> !(Canon(o) == e.org && OrgKey(t.userId, o) in w.cache)
    {
      assert RecordFresh(w.db, w.cache, t.userId, o);
      TargetLookup(w.db, e, t, o);
      if OrgKey(t.userId, o) in w.cache {
        EntrySurvives(w, e, t.userId, o);
      }
    }
  }

  lemma ListAfter(w: World, e: Event, t: Row)
    requires Consistent(w) && Enabled(w, e) && (e.SetRole? || e.Remove?) && Allowed(w.db, e)
    requires t in w.db.rows && t.orgId == e.org && Lookup(w.db.rows, e.target, e.org) == Some(t)
    requires t.userId == Canon(e.target) && IdLike(t.userId)
    requires e.target != t.userId && (e.SetRole? ==> t.role != e.role)
    ensures var key, after := OrgKey(t.userId, "list"), Step(w, e).0.cache;
      (key in after ==> after[key] == OrgsRead(DbStep(w.db, e), t.userId, 1, 20))
      <==> key !in w.cache || (e.SetRole? && !OnFirstPage(w.db, t.userId, e.org))
  {
    hide Canon, Lookup, Step, IdLike, OrgKey, PlainPart, Tables, MembersFresh, RecordsFresh, OnFirstPage, OrgsRead,
      WithRole, Without, RoleRefusal, RemovalRefusal, Guard;
    PlainIds();
    ListIsPlain();
    EntriesOnlyGo(w, e);
    if OrgKey(t.userId, "list") in w.cache {
      EntrySurvives(w, e, t.userId, "list");
      if e.SetRole? {
        RoleChangesListIff(w.db, t, e.role);
      } else {
        RemovalChangesList(w.db, t);
      }
    }
  }

  lemma SameRoleChangesNothing(db: Database, e: Event, t: Row)
    requires e.SetRole? && t.role == e.role
    requires Tables(db) && t in db.rows && Lookup(db.rows, e.target, e.org) == Some(t)
    ensures DbStep(db, e) == db
  {
    hide Lookup, Guard, RoleRefusal, Canon;
    forall i | 0 <= i < |db.rows| ensures WithRole(db.rows, t.id, e.role)[i] == db.rows[i] {
      if db.rows[i].id == t.id {
        SameRow(db.rows, db.rows[i], t);
      }
    }
    assert WithRole(db.rows, t.id, e.role) == db.rows;
  }

  lemma ChangeTouches(db: Database, e: Event, t: Row)
    requires (e.SetRole? || e.Remove?) && Allowed(db, e)
    requires Tables(db) && t in db.rows && Lookup(db.rows, e.target, e.org) == Some(t)
    ensures OnlyTouches(db, DbStep(db, e), t.userId, t.orgId) && KnownId(t.userId)
  {
    hide Lookup, Allowed, OnlyTouches, WithRole, Without;
    if e.SetRole? {
      RoleTouches(db, t, e.role);
    } else {
      RemovalTouches(db, t);
    }
  }

  lemma OddChangeCoherentIff(w: World, e: Event)
    requires Consistent(w) && Enabled(w, e) && (e.SetRole? || e.Remove?) && Allowed(w.db, e)
    requires Canon(e.target) != e.target
    ensures Coherent(DbStep(w.db, e), Step(w, e).0.cache) <==> !LeavesStale(w, e)
  {
    hide Canon, Lookup, Allowed, DbStep, Step, OrgKey, MembersKey, Tables, Coherent, OnlyTouches, RecordCached,
      OnFirstPage,
      RecordFresh;
    var t := TargetRow(w.db, e);
    ChangeTouches(w.db, e, t);
    EntriesOnlyGo(w, e);
    if e.SetRole? && t.role == e.role {
      SameRoleChangesNothing(w.db, e, t);
      FewerEntriesCoherent(w.db, w.cache, Step(w, e).0.cache);
    } else {
      OneUserDecides(w.db, DbStep(w.db, e), w.cache, Step(w, e).0.cache, t.userId, t.orgId);
      RecordsAfter(w, e, t);
      ListAfter(w, e, t);
    }
  }

  /** A step leaves every cached list and record equal to a fresh read if and only if it is not one of
      those requests. */
  lemma StepKeepsConsistentIff(w: World, e: Event)
    requires Consistent(w) && Enabled(w, e)
    ensures Consistent(Step(w, e).0) <==> !LeavesStale(w, e)
  {
    hide Canon, Lookup, Allowed, DbStep, Step, OrgKey, Tables, Coherent, RecordCached, OnFirstPage, Enabled;
    if (e.SetRole? || e.Remove?) && Canon(e.target) != e.target && Allowed(w.db, e) {
      StepActsOnTables(w, e);
      StepKeepsTablesIn(w, e);
      OddChangeCoherentIff(w, e);
    } else if (e.SetRole? || e.Remove?) && Canon(e.target) != e.target {
      RefusalChangesNothing(w, e);
    } else {
      StepKeepsConsistent(w, e);
    }
  }

  lemma StepKeepsTablesIn(w: World, e: Event)
    requires Tables(w.db) && Enabled(w, e)
    ensures Tables(DbStep(w.db, e))
  {
    StepKeepsTables(w.db, e);
  }

  /** A member removed under another spelling of their id is still served from their cached record. */
  lemma RemovedMemberStillServed(w: World, e: Event)
    requires Consistent(w) && Enabled(w, e) && e.Remove? && Allowed(w.db, e) && e.target != Canon(e.target)
    requires OrgKey(Canon(e.target), e.org) in w.cache
    ensures var after := Step(w, e).0;
      Lookup(after.db.rows, Canon(e.target), e.org).None? && GetById(after, e.org, Canon(e.target)).1.Ok?
  {
    hide Canon, Lookup, Allowed, DbStep, Step, OrgKey, Tables, Coherent, PlainPart;
    var t := TargetRow(w.db, e);
    ChangeTouches(w.db, e, t);
    PlainIds();
    StepActsOnTables(w, e);
    TargetLookup(w.db, e, t, e.org);
    EntrySurvives(w, e, t.userId, e.org);
  }

  function SmallTables(): Database {
    Database([], map["b2" := Org("b2", "B")], [Row("c3", "a1", "b2", OWNER, 0), Row("c4", "d4", "b2", MEMBER, 1)])
  }

  lemma SmallIds()
    ensures KnownId("a1") && KnownId("b2") && KnownId("d4")
    ensures IdLike("D4") && Canon("D4") == "d4" && Canon("D4") != "D4"
  {
    assert Canon("a1") == "a1" && Canon("b2") == "b2" && Canon("d4") == "d4" && Canon("D4") == "d4";
    assert "D4"[0] != "d4"[0];
  }

  lemma SmallTablesHold()
    ensures Tables(SmallTables())
    ensures var rows := SmallTables().rows;
      && Lookup(rows, "a1", "b2") == Some(rows[0]) && Lookup(rows, "d4", "b2") == Some(rows[1])
      && Lookup(rows, "D4", "b2") == Some(rows[1])
  {
    SmallIds();
    hide Canon, Lookup, IdLike;
    var rows := SmallTables().rows;
    assert rows[0] in rows && rows[1] in rows;
    LookupFinds(rows, "a1", "b2");
    LookupFinds(rows, "d4", "b2");
    LookupFinds(rows, "D4", "b2");
  }

  /** The member's look fills the cache. */
  lemma SmallLook(w: World)
    requires w == World(SmallTables(), map[], true)
    ensures Consistent(w) && Enabled(w, ShowOrg("d4", "b2"))
    ensures var w1 := Step(w, ShowOrg("d4", "b2")).0; Consistent(w1) && w1.db == w.db && OrgKey("d4", "b2") in w1.cache
  {
    SmallIds();
    SmallTablesHold();
    hide Canon, Lookup, IdLike, OrgKey, OrgViewOf, Tables, KnownId;
    assert KnownId("d4") ==> Canon("d4") == "d4" && IdLike("d4") by {
      KnownParts("d4");
    }
    ReadKeepsCoherent(w, ShowOrg("d4", "b2"));
  }

  lemma KnownParts(id: string)
    ensures KnownId(id) <==> Canon(id) == id && IdLike(id)
  {
  }

  lemma SmallRemoval(w: World)
    requires w.db == SmallTables()
    ensures Enabled(w, Remove("a1", "b2", "D4")) && Allowed(w.db, Remove("a1", "b2", "D4"))
  {
    SmallIds();
    SmallTablesHold();
    hide Canon, Lookup, IdLike, Filter;
  }

  /** A concrete run: a member looks at their organization, the owner removes them under their id in
      capitals, and the next look is answered as before. */
  lemma OddSpellingServesRemoved()
    ensures var w, look, removal := World(SmallTables(), map[], true), ShowOrg("d4", "b2"), Remove("a1", "b2", "D4");
      && Consistent(w) && Enabled(w, look)
      && var w1 := Step(w, look).0;
      && Enabled(w1, removal) && LeavesStale(w1, removal)
      && var w2 := Step(w1, removal).0;
      && Lookup(w2.db.rows, "d4", "b2").None? && Enabled(w2, look) && Step(w2, look).1.Shown?
  {
    var w, look, removal := World(SmallTables(), map[], true), ShowOrg("d4", "b2"), Remove("a1", "b2", "D4");
    SmallIds();
    SmallLook(w);
    var w1 := Step(w, look).0;
    SmallRemoval(w1);
    hide SmallTables, Step, Allowed, Canon, Lookup, IdLike, OrgKey, Consistent;
    RemovedMemberStillServed(w1, removal);
    LookIsAnswered(Step(w1, removal).0);
    assert RecordCached(w1.cache, "d4", "b2");
  }

  lemma LookIsAnswered(w: World)
    requires GetById(w, "b2", "d4").1.Ok?
    ensures Enabled(w, ShowOrg("d4", "b2")) && Step(w, ShowOrg("d4", "b2")).1.Shown?
  {
    SmallIds();
    hide Canon, IdLike, GetById;
  }

  // ---- Runs ----

  ghost predicate Moves(ws: seq<World>, es: seq<Event>, n: nat)
    requires n < |es| && |ws| == |es| + 1
  {
    Enabled(ws[n], es[n]) && ws[n + 1] == Step(ws[n], es[n]).0
  }

  /** The states of a run: each comes from the one before by its event. */
  ghost predicate IsRun(ws: seq<World>, es: seq<Event>) {
    |ws| == |es| + 1 && forall n: nat | n < |es| :: Moves(ws, es, n)
  }

  lemma {:induction false} TablesInRun(ws: seq<World>, es: seq<Event>, n: nat)
    requires IsRun(ws, es) && Tables(ws[0].db) && n < |ws|
    ensures Tables(ws[n].db)
  {
    hide Tables, Enabled, Step, DbStep;
    if n == 0 {
    } else {
      TablesInRun(ws, es, n - 1);
      assert Moves(ws, es, n - 1);
      StepKeepsTablesIn(ws[n - 1], es[n - 1]);
      StepActsOnTables(ws[n - 1], es[n - 1]);
    }
  }

  lemma OwnedStepIff(w: World, e: Event)
    requires Tables(w.db) && Owned(w.db) && Enabled(w, e)
    ensures Owned(Step(w, e).0.db) <==> !GivesUpUnseen(w.db, e)
  {
    hide Tables, Owned, Step, DbStep, GivesUpUnseen;
    StepActsOnTables(w, e);
    StepKeepsOwnedIff(w.db, e);
  }

  lemma {:induction false} OwnedInRun(ws: seq<World>, es: seq<Event>, n: nat)
    requires IsRun(ws, es) && Tables(ws[0].db) && Owned(ws[0].db) && n < |ws|
    requires forall m: nat | m < n :: !GivesUpUnseen(ws[m].db, es[m])
    ensures Owned(ws[n].db)
  {
    hide Tables, Owned, Enabled, Step, GivesUpUnseen;
    if n == 0 {
    } else {
      OwnedInRun(ws, es, n - 1);
      TablesInRun(ws, es, n - 1);
      assert Moves(ws, es, n - 1);
      OwnedStepIff(ws[n - 1], es[n - 1]);
    }
  }

  /** In every state of a run every organization has an owner, if and only if in no step an only owner
      gives the role up under another spelling of their own id. */
  lemma RunKeepsOwnersIff(ws: seq<World>, es: seq<Event>)
    requires IsRun(ws, es) && Tables(ws[0].db) && Owned(ws[0].db)
    ensures (forall n: nat | n < |ws| :: Owned(ws[n].db))
       <==> (forall n: nat | n < |es| :: !GivesUpUnseen(ws[n].db, es[n]))
  {
    hide Tables, Owned, Enabled, Step, GivesUpUnseen;
    if forall n: nat | n < |ws| :: Owned(ws[n].db) {
      forall n: nat | n < |es| ensures !GivesUpUnseen(ws[n].db, es[n]) {
        TablesInRun(ws, es, n);
        assert Moves(ws, es, n);
        assert Owned(ws[n + 1].db);
        OwnedStepIff(ws[n], es[n]);
      }
    }
    if forall n: nat | n < |es| :: !GivesUpUnseen(ws[n].db, es[n]) {
      forall n: nat | n < |ws| ensures Owned(ws[n].db) {
        OwnedInRun(ws, es, n);
      }
    }
  }

  lemma {:induction false} ConsistentInRun(ws: seq<World>, es: seq<Event>, n: nat)
    requires IsRun(ws, es) && Consistent(ws[0]) && n < |ws|
    requires forall m: nat | m < n :: !LeavesStale(ws[m], es[m])
    ensures Consistent(ws[n])
  {
    hide Consistent, Enabled, Step, LeavesStale;
    if n == 0 {
    } else {
      ConsistentInRun(ws, es, n - 1);
      assert Moves(ws, es, n - 1);
      StepKeepsConsistentIff(ws[n - 1], es[n - 1]);
    }
  }

  /** In every state of a run every cached list and record is what a fresh read would return, if and
      only if no step leaves a stale entry. */
  lemma RunKeepsCachesIff(ws: seq<World>, es: seq<Event>)
    requires IsRun(ws, es) && Consistent(ws[0])
    ensures (forall n: nat | n < |ws| :: Consistent(ws[n]))
       <==> (forall n: nat | n < |es| :: !LeavesStale(ws[n], es[n]))
  {
    hide Consistent, Enabled, Step, LeavesStale;
    if forall n: nat | n < |ws| :: Consistent(ws[n]) {
      forall n: nat | n < |es| ensures !LeavesStale(ws[n], es[n]) {
        assert Moves(ws, es, n);
        assert Consistent(ws[n]) && Consistent(ws[n + 1]);
        StepKeepsConsistentIff(ws[n], es[n]);
      }
    }
    if forall n: nat | n < |es| :: !LeavesStale(ws[n], es[n]) {
      forall n: nat | n < |ws| ensures Consistent(ws[n]) {
        ConsistentInRun(ws, es, n);
      }
    }
  }

  /** In particular, every run whose target ids are spelled as stored keeps both. */
  lemma EveryRunKeepsOwnersAndCaches(ws: seq<World>, es: seq<Event>)
    requires IsRun(ws, es) && Consistent(ws[0]) && Owned(ws[0].db)
    requires forall n: nat | n < |es| :: SpelledAsStored(es[n])
    ensures forall n: nat | n < |ws| :: Consistent(ws[n]) && Owned(ws[n].db)
  {
    forall n: nat | n < |es| ensures !LeavesStale(ws[n], es[n]) && !GivesUpUnseen(ws[n].db, es[n]) {
      assert SpelledAsStored(es[n]);
    }
    hide Enabled, Step, LeavesStale, GivesUpUnseen, Owned, Tables, Coherent, SpelledAsStored;
    RunKeepsCachesIff(ws, es);
    RunKeepsOwnersIff(ws, es);
  }
}

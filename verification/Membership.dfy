/** Organizations, memberships and the caches in front of them. The world is the database together
    with the visible contents of Redis; each service call is one step, made by an actor whose acting
    role is the role in their current membership row.

    Ids are UUIDs. The uuid columns compare them by value whatever their spelling, while JavaScript
    and the cache keys compare spellings; `Canon` is the database's spelling. */
module Membership {
  import opened Outcomes
  import opened Pagination
  import opened RedisStore

  datatype Role = OWNER | ADMIN | MEMBER | VIEWER

  datatype User = User(id: string, email: string, name: string)
  datatype Org = Org(id: string, name: string)
  datatype Row = Row(id: string, userId: string, orgId: string, role: Role, joinedAt: nat)

  /** The tables; membership rows are kept in the order of their creation. */
  datatype Database = Database(users: seq<User>, orgs: map<string, Org>, rows: seq<Row>)

  datatype MemberView = MemberView(id: string, userId: string, email: string, name: string, role: Role, joinedAt: nat)
  datatype OrgView = OrgView(org: Org, role: Role, joinedAt: nat)

  /** What the caches hold. */
  datatype Cached =
    | MemberPage(members: seq<MemberView>, meta: OffsetMeta)
    | OrgPage(orgs: seq<OrgView>, meta: OffsetMeta)
    | Record(view: OrgView)

  datatype Error =
    | UserNotFound | AlreadyMember | MemberNotFound | OwnerProtected | PromotionDenied | LastOwner
    | AccessDenied | RoleInsufficient | InvalidRole | InvalidSkip

  datatype Acting = Acting(userId: string, role: Role)

  datatype World = World(db: Database, cache: map<string, Cached>, ready: bool)

  // ---- Ids ----

  function LowerHex(c: char): char {
    if 'A' <= c <= 'Z' then c - 'A' + 'a' else c
  }

  /** The spelling a uuid column gives back. */
  function Canon(id: string): (r: string)
    ensures |r| == |id| && forall i | 0 <= i < |id| :: r[i] == LowerHex(id[i])
  {
    seq(|id|, i requires 0 <= i < |id| => LowerHex(id[i]))
  }

  /** A text that can be an id: safe in a key, and never the suffix of a list entry. */
  predicate IdLike(id: string) {
    PlainPart(id) && id != "list"
  }

  // ---- Rows ----

  function Filter(rows: seq<Row>, keep: Row -> bool): seq<Row> {
    if rows == [] then []
    else if keep(rows[0]) then [rows[0]] + Filter(rows[1..], keep)
    else Filter(rows[1..], keep)
  }

  function InOrg(org: string): Row -> bool {
    (r: Row) => r.orgId == org
  }

  function OfUser(user: string): Row -> bool {
    (r: Row) => r.userId == user
  }

  function At(user: string, org: string): Row -> bool {
    (r: Row) => r.userId == user && r.orgId == org
  }

  function OwnerIn(org: string): Row -> bool {
    (r: Row) => r.orgId == org && r.role == OWNER
  }

  function NotId(id: string): Row -> bool {
    (r: Row) => r.id != id
  }

  /** findUnique on (userId, organizationId). */
  function Lookup(rows: seq<Row>, user: string, org: string): Option<Row> {
    var found := Filter(rows, At(Canon(user), Canon(org)));
    if found == [] then None else Some(found[0])
  }

  /** update where id */
  function WithRole(rows: seq<Row>, id: string, role: Role): seq<Row> {
    seq(|rows|, i requires 0 <= i < |rows| => if rows[i].id == id then rows[i].(role := role) else rows[i])
  }

  /** delete where id */
  function Without(rows: seq<Row>, id: string): seq<Row> {
    Filter(rows, NotId(id))
  }

  function UserById(users: seq<User>, id: string): User {
    if users == [] then User(id, "", "") else if users[0].id == id then users[0] else UserById(users[1..], id)
  }

  function UserByEmail(users: seq<User>, email: string): (r: Option<User>)
    ensures r.Some? ==> r.value in users && r.value.email == email
    ensures r.None? ==> forall u | u in users :: u.email != email
  {
    if users == [] then None else if users[0].email == email then Some(users[0]) else UserByEmail(users[1..], email)
  }

  function ViewOf(users: seq<User>, r: Row): MemberView {
    var user := UserById(users, r.userId);
    MemberView(r.id, user.id, user.email, user.name, r.role, r.joinedAt)
  }

  function OrgViewOf(orgs: map<string, Org>, r: Row): OrgView {
    OrgView(if r.orgId in orgs then orgs[r.orgId] else Org(r.orgId, ""), r.role, r.joinedAt)
  }

  function ViewsOf(users: seq<User>, rows: seq<Row>): seq<MemberView> {
    seq(|rows|, i requires 0 <= i < |rows| => ViewOf(users, rows[i]))
  }

  function OrgViewsOf(orgs: map<string, Org>, rows: seq<Row>): seq<OrgView> {
    seq(|rows|, i requires 0 <= i < |rows| => OrgViewOf(orgs, rows[i]))
  }

  /** What the list of members would show if read from the table. */
  function MembersRead(db: Database, org: string, page: nat, limit: nat): Cached
    requires page >= 1 && limit >= 1
  {
    var rows := Filter(db.rows, InOrg(org));
    MemberPage(ViewsOf(db.users, PageOf(rows, page, limit)), BuildOffsetPagination(|rows|, page, limit))
  }

  /** What a user's list of organizations would show if read from the table. */
  function OrgsRead(db: Database, user: string, page: nat, limit: nat): Cached
    requires page >= 1 && limit >= 1
  {
    var rows := Filter(db.rows, OfUser(user));
    OrgPage(OrgViewsOf(db.orgs, PageOf(rows, page, limit)), BuildOffsetPagination(|rows|, page, limit))
  }

  // ---- Cache ----

  function MembersKey(org: string): string {
    BuildKey(["cache", "members", org, "list"])
  }

  function OrgKey(user: string, suffix: string): string {
    BuildKey(["cache", "org", user, suffix])
  }

  function MembersPattern(org: string): string {
    BuildKey(["cache", "members", org, "*"])
  }

  function OrgPattern(user: string): string {
    BuildKey(["cache", "org", user, "*"])
  }

  function Cache(w: World, key: string): Option<Cached> {
    if w.ready && key in w.cache then Some(w.cache[key]) else None
  }

  function Put(w: World, key: string, value: Cached): World {
    if w.ready then w.(cache := w.cache[key := value]) else w
  }

  function Sweep(w: World, pattern: string): World {
    if w.ready then w.(cache := w.cache - Matching(w.cache, pattern)) else w
  }

  /** What follows every change of a membership. */
  function Invalidate(w: World, org: string, user: string): World {
    Sweep(Sweep(w, MembersPattern(org)), OrgPattern(user))
  }

  // ---- Operations of the services ----

  /** create, with the id the database gives. */
  function Create(w: World, name: string, user: string, newOrg: string, rowId: string, at: nat): (World, Org) {
    var org := Org(newOrg, name);
    var db := w.db.(orgs := w.db.orgs[newOrg := org], rows := w.db.rows + [Row(rowId, user, newOrg, OWNER, at)]);
    (Sweep(w.(db := db), OrgPattern(user)), org)
  }

  function AddMember(w: World, org: string, email: string, role: Role, rowId: string, at: nat)
    : (World, Result<MemberView, Error>)
  {
    match UserByEmail(w.db.users, email)
    case None => (w, Err(UserNotFound))
    case Some(user) =>
      if Lookup(w.db.rows, user.id, org).Some? then (w, Err(AlreadyMember))
      else
        var row := Row(rowId, user.id, org, role, at);
        (Invalidate(w.(db := w.db.(rows := w.db.rows + [row])), org, user.id), Ok(ViewOf(w.db.users, row)))
  }

  /** The refusal of updateMemberRole, if any. The self check compares the spelling of the target id
      with the acting user's id. */
  function RoleRefusal(rows: seq<Row>, org: string, target: string, role: Role, acting: Acting): Option<Error> {
    match Lookup(rows, target, org)
    case None => Some(MemberNotFound)
    case Some(row) =>
      if row.role == OWNER && acting.role != OWNER then Some(OwnerProtected)
      else if role == OWNER && acting.role != OWNER then Some(PromotionDenied)
      else if target == acting.userId && row.role == OWNER && |Filter(rows, OwnerIn(org))| <= 1 && role != OWNER then
        Some(LastOwner)
      else None
  }

  function UpdateMemberRole(w: World, org: string, target: string, role: Role, acting: Acting)
    : (World, Result<MemberView, Error>)
  {
    match RoleRefusal(w.db.rows, org, target, role, acting)
    case Some(e) => (w, Err(e))
    case None =>
      var row := Lookup(w.db.rows, target, org).value;
      (Invalidate(w.(db := w.db.(rows := WithRole(w.db.rows, row.id, role))), org, target),
       Ok(ViewOf(w.db.users, row.(role := role))))
  }

  function RemovalRefusal(rows: seq<Row>, org: string, target: string, acting: Acting): Option<Error> {
    match Lookup(rows, target, org)
    case None => Some(MemberNotFound)
    case Some(row) =>
      if row.role == OWNER && acting.role != OWNER then Some(OwnerProtected)
      else if row.role == OWNER && |Filter(rows, OwnerIn(org))| <= 1 then Some(LastOwner)
      else None
  }

  function RemoveMember(w: World, org: string, target: string, acting: Acting): (World, Result<(), Error>) {
    match RemovalRefusal(w.db.rows, org, target, acting)
    case Some(e) => (w, Err(e))
    case None =>
      var row := Lookup(w.db.rows, target, org).value;
      (Invalidate(w.(db := w.db.(rows := Without(w.db.rows, row.id))), org, target), Ok(()))
  }

  /** listMembers; only the first page at the default limit goes through the cache. A query with a
      cursor has no page, so the number of rows to skip is NaN, which the database client refuses. */
  function ListMembers(w: World, org: string, q: Query): (World, Result<Cached, Error>) {
    match ParsePaginationParams(q)
    case ByCursor(_, _) => (w, Err(InvalidSkip))
    case ByPage(limit, page) =>
      var first := page == 1 && limit == 20;
      if first && Cache(w, MembersKey(org)).Some? then (w, Ok(Cache(w, MembersKey(org)).value))
      else
        var result := MembersRead(w.db, org, page, limit);
        (if first then Put(w, MembersKey(org), result) else w, Ok(result))
  }

  /** listForUser, likewise. */
  function ListForUser(w: World, user: string, q: Query): (World, Result<Cached, Error>) {
    match ParsePaginationParams(q)
    case ByCursor(_, _) => (w, Err(InvalidSkip))
    case ByPage(limit, page) =>
      var first := page == 1 && limit == 20;
      if first && Cache(w, OrgKey(user, "list")).Some? then (w, Ok(Cache(w, OrgKey(user, "list")).value))
      else
        var result := OrgsRead(w.db, user, page, limit);
        (if first then Put(w, OrgKey(user, "list"), result) else w, Ok(result))
  }

  function GetById(w: World, org: string, user: string): (World, Result<Cached, Error>) {
    var key := OrgKey(user, org);
    if Cache(w, key).Some? then (w, Ok(Cache(w, key).value))
    else
      match Lookup(w.db.rows, user, org)
      case None => (w, Err(AccessDenied))
      case Some(row) =>
        var result := Record(OrgViewOf(w.db.orgs, row));
        (Put(w, key, result), Ok(result))
  }

  // ---- Steps ----

  /** A request by an authenticated user, or the loss of some cache entries to their expiry. */
  datatype Event =
    | CreateOrg(actor: string, name: string, newOrg: string, rowId: string, at: nat)
    | Add(actor: string, org: string, email: string, role: Role, rowId: string, at: nat)
    | SetRole(actor: string, org: string, target: string, role: Role)
    | Remove(actor: string, org: string, target: string)
    | ShowMembers(actor: string, org: string, query: Query)
    | ShowOrgs(actor: string, query: Query)
    | ShowOrg(actor: string, org: string)
    | Expire(keys: set<string>)

  datatype Reply =
    | Denied(error: Error)
    | Created(org: Org)
    | Changed(member: MemberView)
    | Gone
    | Shown(value: Cached)
    | Nothing

  function Answer<T>(r: Result<T, Error>, wrap: T -> Reply): Reply {
    match r
    case Ok(x) => wrap(x)
    case Err(e) => Denied(e)
  }

  /** The organization middleware and the role check in front of the member routes. Their schemas then
      let through the roles ADMIN and MEMBER for a new member, and all but VIEWER for a change. */
  function Guard(rows: seq<Row>, actor: string, org: string, managing: bool): Result<Acting, Error> {
    match Lookup(rows, actor, org)
    case None => Err(AccessDenied)
    case Some(row) => if managing && row.role != OWNER && row.role != ADMIN then Err(RoleInsufficient)
      else Ok(Acting(actor, row.role))
  }

  predicate Enabled(w: World, e: Event) {
    && (!e.Expire? ==> Canon(e.actor) == e.actor && IdLike(e.actor))
    && (e.CreateOrg? ==> e.newOrg !in w.db.orgs && IdLike(e.newOrg) && Canon(e.newOrg) == e.newOrg)
    && (e.CreateOrg? ==> NewRow(w.db.rows, e.rowId))
    && (e.Add? ==> NewRow(w.db.rows, e.rowId))
    && (e.Add? || e.SetRole? || e.Remove? || e.ShowMembers? ==> IdLike(e.org) && Canon(e.org) == e.org)
    && (e.ShowOrg? ==> IdLike(e.org))
    && (e.SetRole? || e.Remove? ==> IdLike(e.target))
  }

  predicate NewRow(rows: seq<Row>, id: string) {
    forall r | r in rows :: r.id != id
  }

  function Step(w: World, e: Event): (World, Reply)
    requires Enabled(w, e)
  {
    match e
    case CreateOrg(actor, name, newOrg, rowId, at) =>
      var (w', org) := Create(w, name, actor, newOrg, rowId, at);
      (w', Created(org))
    case Add(actor, org, email, role, rowId, at) => (
      match Guard(w.db.rows, actor, org, true)
      case Err(err) => (w, Denied(err))
      case Ok(_) =>
        if role != ADMIN && role != MEMBER then (w, Denied(InvalidRole))
        else
          var (w', r) := AddMember(w, org, email, role, rowId, at);
          (w', Answer(r, m => Changed(m))))
    case SetRole(actor, org, target, role) => (
      match Guard(w.db.rows, actor, org, true)
      case Err(err) => (w, Denied(err))
      case Ok(acting) =>
        if role == VIEWER then (w, Denied(InvalidRole))
        else
          var (w', r) := UpdateMemberRole(w, org, target, role, acting);
          (w', Answer(r, m => Changed(m))))
    case Remove(actor, org, target) => (
      match Guard(w.db.rows, actor, org, true)
      case Err(err) => (w, Denied(err))
      case Ok(acting) =>
        var (w', r) := RemoveMember(w, org, target, acting);
        (w', Answer(r, _ => Gone)))
    case ShowMembers(actor, org, query) => (
      match Guard(w.db.rows, actor, org, false)
      case Err(err) => (w, Denied(err))
      case Ok(_) =>
        var (w', r) := ListMembers(w, org, query);
        (w', Answer(r, c => Shown(c))))
    case ShowOrgs(actor, query) =>
      var (w', r) := ListForUser(w, actor, query);
      (w', Answer(r, c => Shown(c)))
    case ShowOrg(actor, org) =>
      var (w', r) := GetById(w, org, actor);
      (w', Answer(r, c => Shown(c)))
    case Expire(keys) => (w.(cache := w.cache - keys), Nothing)
  }
}

/** Resource-level permissions: the single access check, its bulk form, and granting and revoking. */
module DocumentAccess {
  import opened Outcomes
  import Membership

  type Role = Membership.Role

  /** The levels of a grant. */
  datatype Permission = READ | WRITE | FULL

  /** A requested level; any other text has the weight of READ but not its default. */
  datatype Level = Level(permission: Permission) | Other

  datatype Grantee = ToUser(id: Option<string>) | ToRole(role: Option<Role>) | ToOrganization

  datatype Document = Document(id: string, organizationId: string, userId: string)
  datatype Grant = Grant(id: string, documentId: string, grantee: Grantee, permission: Permission)

  datatype Subject = Subject(userId: string, role: Role)

  /** UnknownDocument is the database refusing a grant on a document that does not exist. */
  datatype Error = AccessDenied | PermissionNotFound | UnknownDocument

  function Weight(p: Permission): nat {
    match p
    case READ => 1
    case WRITE => 2
    case FULL => 3
  }

  function Required(level: Level): nat {
    match level
    case Level(p) => Weight(p)
    case Other => 1
  }

  predicate Manages(role: Role) {
    role == Membership.OWNER || role == Membership.ADMIN
  }

  /** Access to a document without any grants, for those who are neither its creator nor manage the
      organization. */
  predicate ByDefault(role: Role, level: Level) {
    level == Level(READ) || (level == Level(WRITE) && role != Membership.VIEWER)
  }

  predicate Covers(g: Grant, s: Subject, level: Level) {
    && Weight(g.permission) >= Required(level)
    && match g.grantee
       case ToOrganization => true
       case ToUser(id) => id == Some(s.userId)
       case ToRole(role) => role == Some(s.role)
  }

  /** The grants of a document, in the order they were made. */
  function GrantsOf(grants: seq<Grant>, doc: string): seq<Grant> {
    if grants == [] then []
    else if grants[0].documentId == doc then [grants[0]] + GrantsOf(grants[1..], doc)
    else GrantsOf(grants[1..], doc)
  }

  /** What the documentation promises for one document and someone who does not manage the organization. */
  ghost predicate MayUse(grants: seq<Grant>, doc: Document, s: Subject, level: Level) {
    || doc.userId == s.userId
    || ((forall g | g in grants :: g.documentId != doc.id) && ByDefault(s.role, level))
    || (exists g :: g in grants && g.documentId == doc.id && Covers(g, s, level))
  }

  ghost predicate CanAccess(docs: seq<Document>, grants: seq<Grant>, s: Subject, org: string, doc: string,
                            level: Level)
  {
    Manages(s.role) || exists d :: d in docs && d.id == doc && d.organizationId == org && MayUse(grants, d, s, level)
  }

  /** Document ids are a primary key. */
  ghost predicate DistinctDocs(docs: seq<Document>) {
    forall i, j | 0 <= i < j < |docs| :: docs[i].id != docs[j].id
  }

  ghost predicate DistinctGrants(grants: seq<Grant>) {
    forall i, j | 0 <= i < j < |grants| :: grants[i].id != grants[j].id
  }

  lemma {:induction false} GrantsOfMembers(grants: seq<Grant>, doc: string, g: Grant)
    ensures g in GrantsOf(grants, doc) <==> g in grants && g.documentId == doc
  {
    if grants == [] {
    } else {
      GrantsOfMembers(grants[1..], doc, g);
      assert grants == [grants[0]] + grants[1..];
    }
  }

  lemma AllGrantsOf(grants: seq<Grant>, doc: string)
    ensures forall g :: g in GrantsOf(grants, doc) <==> g in grants && g.documentId == doc
    ensures GrantsOf(grants, doc) == [] <==> forall g | g in grants :: g.documentId != doc
  {
    forall g {
      GrantsOfMembers(grants, doc, g);
    }
    if GrantsOf(grants, doc) != [] {
      assert GrantsOf(grants, doc)[0] in GrantsOf(grants, doc);
    }
  }

  function FindDocument(docs: seq<Document>, id: string, org: string): (r: Option<Document>)
    ensures r.Some? ==> r.value in docs && r.value.id == id && r.value.organizationId == org
    ensures r.None? ==> forall d | d in docs :: d.id != id || d.organizationId != org
  {
    if docs == [] then None
    else if docs[0].id == id && docs[0].organizationId == org then Some(docs[0])
    else FindDocument(docs[1..], id, org)
  }

  /** The documents of an organization that someone may use, in table order. */
  ghost function Usable(docs: seq<Document>, grants: seq<Grant>, s: Subject, org: string, level: Level): seq<string> {
    if docs == [] then []
    else
      var before, d := Usable(docs[..|docs| - 1], grants, s, org, level), docs[|docs| - 1];
      if d.organizationId == org && MayUse(grants, d, s, level) then before + [d.id] else before
  }

  lemma SameDocument(docs: seq<Document>, d: Document, e: Document)
    requires DistinctDocs(docs) && d in docs && e in docs && d.id == e.id
    ensures d == e
  {
  }

  class DocumentAccessService {
    var docs: seq<Document>
    var grants: seq<Grant>

    constructor (docs: seq<Document>)
      requires DistinctDocs(docs)
      ensures this.docs == docs && grants == []
    {
      this.docs, grants := docs, [];
    }

    ghost predicate Valid()
      reads this
    {
      DistinctDocs(docs) && DistinctGrants(grants)
    }

    /** canAccessDocument */
    method CanAccessDocument(s: Subject, org: string, documentId: string, level: Level) returns (r: bool)
      requires Valid()
      ensures r <==> CanAccess(docs, grants, s, org, documentId, level)
    {
      hide Covers, ByDefault, GrantsOf;
      if Manages(s.role) {
        return true;
      }
      var doc := FindDocument(docs, documentId, org);
      if doc.None? {
        return false;
      }
      forall d | d in docs && d.id == documentId && d.organizationId == org ensures d == doc.value {
        SameDocument(docs, d, doc.value);
      }
      assert CanAccess(docs, grants, s, org, documentId, level) <==> MayUse(grants, doc.value, s, level);
      if doc.value.userId == s.userId {
        return true;
      }
      var permissions := GrantsOf(grants, documentId);
      AllGrantsOf(grants, documentId);
      if permissions == [] {
        return ByDefault(s.role, level);
      }
      assert permissions[0] in grants && permissions[0].documentId == documentId;
      r := AnyCovers(permissions, s, level);
    }

    /** getAccessibleDocumentIds; None is null, which stands for all documents of the organization. */
    method GetAccessibleDocumentIds(s: Subject, org: string, level: Level) returns (r: Option<seq<string>>)
      ensures r.None? <==> Manages(s.role)
      ensures r.Some? ==> r.value == Usable(docs, grants, s, org, level)
    {
      hide Covers, ByDefault, GrantsOf;
      if Manages(s.role) {
        return None;
      }
      var accessibleIds: seq<string> := [];
      for i := 0 to |docs|
        invariant accessibleIds == Usable(docs[..i], grants, s, org, level)
      {
        assert docs[..i + 1][..i] == docs[..i];
        var doc := docs[i];
        if doc.organizationId != org {
          continue;
        }
        if doc.userId == s.userId {
          accessibleIds := accessibleIds + [doc.id];
          continue;
        }
        var permissions := GrantsOf(grants, doc.id);
        AllGrantsOf(grants, doc.id);
        if permissions == [] {
          if ByDefault(s.role, level) {
            accessibleIds := accessibleIds + [doc.id];
          }
          continue;
        }
        assert permissions[0] in grants && permissions[0].documentId == doc.id;
        var hasGrant := AnyCovers(permissions, s, level);
        if hasGrant {
          accessibleIds := accessibleIds + [doc.id];
        }
      }
      assert docs[..|docs|] == docs;
      r := Some(accessibleIds);
    }

    /** grantPermission; the database gives the grant its id. */
    method GrantPermission(s: Subject, org: string, documentId: string, grantee: Grantee, permission: Permission,
        id: string)
      returns (r: Result<Grant, Error>)
      requires Valid() && forall g | g in grants :: g.id != id
      modifies this`grants
      ensures Valid()
      ensures r == Err(AccessDenied) <==> !old(CanAccess(docs, grants, s, org, documentId, Level(FULL)))
      ensures r == Err(UnknownDocument) ==> forall d | d in docs :: d.id != documentId
      ensures r != Err(PermissionNotFound)
      ensures r.Ok? <==> old(CanAccess(docs, grants, s, org, documentId, Level(FULL)))
                         && exists d :: d in docs && d.id == documentId
      ensures r.Ok? ==> r.value == Grant(id, documentId, grantee, permission)
      ensures grants == if r.Ok? then old(grants) + [r.value] else old(grants)
    {
      var hasAdmin := CanAccessDocument(s, org, documentId, Level(FULL));
      if !hasAdmin {
        return Err(AccessDenied);
      }
      if forall d | d in docs :: d.id != documentId {
        return Err(UnknownDocument);
      }
      r := Ok(Grant(id, documentId, grantee, permission));
      assert forall i | 0 <= i < |grants| :: grants[i] in grants;
      grants := grants + [r.value];
    }

    /** revokePermission */
    method RevokePermission(s: Subject, org: string, documentId: string, permissionId: string)
        returns (r: Result<(), Error>)
      requires Valid()
      modifies this`grants
      ensures Valid()
      ensures r == Err(AccessDenied) <==> !old(CanAccess(docs, grants, s, org, documentId, Level(FULL)))
      ensures r.Ok? <==> old(CanAccess(docs, grants, s, org, documentId, Level(FULL)))
                         && exists g :: g in old(grants) && g.id == permissionId && g.documentId == documentId
      ensures r.Err? ==> r.error == AccessDenied || r.error == PermissionNotFound
      ensures grants == if r.Ok? then Revoked(old(grants), permissionId) else old(grants)
    {
      var hasAdmin := CanAccessDocument(s, org, documentId, Level(FULL));
      if !hasAdmin {
        return Err(AccessDenied);
      }
      var i := 0;
      while i < |grants| && !(grants[i].id == permissionId && grants[i].documentId == documentId)
        invariant 0 <= i <= |grants|
        invariant forall j | 0 <= j < i :: grants[j].id != permissionId || grants[j].documentId != documentId
      {
        i := i + 1;
      }
      if i == |grants| {
        return Err(PermissionNotFound);
      }
      assert grants[i] in grants;
      RevokedAt(grants, i);
      RemovalKeepsDistinct(grants, i);
      grants := grants[..i] + grants[i + 1..];
      r := Ok(());
    }
  }

  /** The scan of a document's grants with its early return. */
  method AnyCovers(permissions: seq<Grant>, s: Subject, level: Level) returns (r: bool)
    ensures r <==> exists g :: g in permissions && Covers(g, s, level)
  {
    for i := 0 to |permissions|
      invariant forall j | 0 <= j < i :: !Covers(permissions[j], s, level)
    {
      var perm := permissions[i];
      if Weight(perm.permission) < Required(level) {
        continue;
      }
      if perm.grantee.ToOrganization?
         || (perm.grantee.ToUser? && perm.grantee.id == Some(s.userId))
         || (perm.grantee.ToRole? && perm.grantee.role == Some(s.role))
      {
        assert Covers(perm, s, level);
        return true;
      }
    }
    r := false;
  }

  /** The grants without the one of an id. */
  function Revoked(grants: seq<Grant>, id: string): seq<Grant> {
    if grants == [] then []
    else if grants[0].id == id then Revoked(grants[1..], id)
    else [grants[0]] + Revoked(grants[1..], id)
  }

  lemma {:induction false} RevokedAbsent(grants: seq<Grant>, id: string)
    requires forall i | 0 <= i < |grants| :: grants[i].id != id
    ensures Revoked(grants, id) == grants
  {
    if grants == [] {
    } else {
      RevokedAbsent(grants[1..], id);
    }
  }

  lemma {:induction false} RevokedAt(grants: seq<Grant>, i: nat)
    requires DistinctGrants(grants) && i < |grants|
    ensures Revoked(grants, grants[i].id) == grants[..i] + grants[i + 1..]
  {
    if i == 0 {
      RevokedAbsent(grants[1..], grants[0].id);
      assert grants[..0] + grants[1..] == grants[1..];
    } else {
      RevokedAt(grants[1..], i - 1);
      assert grants[1..][i - 1] == grants[i];
      assert grants[..i] + grants[i + 1..] == [grants[0]] + (grants[1..][..i - 1] + grants[1..][i..]);
    }
  }

  lemma RemovalKeepsDistinct(grants: seq<Grant>, i: nat)
    requires DistinctGrants(grants) && i < |grants|
    ensures DistinctGrants(grants[..i] + grants[i + 1..])
  {
    var left := grants[..i] + grants[i + 1..];
    assert forall j | 0 <= j < |left| :: left[j] == grants[if j < i then j else j + 1];
  }

  // ---- Single and bulk ----

  lemma {:induction false} UsableMembers(docs: seq<Document>, grants: seq<Grant>, s: Subject, org: string,
      level: Level, id: string)
    ensures id in Usable(docs, grants, s, org, level)
       <==> exists d :: d in docs && d.id == id && d.organizationId == org && MayUse(grants, d, s, level)
  {
    hide MayUse;
    if docs == [] {
    } else {
      var d, rest := docs[|docs| - 1], docs[..|docs| - 1];
      UsableMembers(rest, grants, s, org, level, id);
      assert docs == rest + [d];
      assert forall e :: e in docs <==> e in rest || e == d;
    }
  }

  /** The bulk check lists an id exactly when the single check would grant access to it. */
  lemma BulkAgreesWithSingle(docs: seq<Document>, grants: seq<Grant>, s: Subject, org: string, level: Level, id: string)
    requires !Manages(s.role)
    ensures id in Usable(docs, grants, s, org, level) <==> CanAccess(docs, grants, s, org, id, level)
  {
    hide MayUse;
    UsableMembers(docs, grants, s, org, level, id);
  }

  /** Access at a level gives access at every lower one; a text that is no level never gives more than READ. */
  lemma AccessIsMonotone(docs: seq<Document>, grants: seq<Grant>, s: Subject, org: string, doc: string, high: Level,
      low: Level)
    requires CanAccess(docs, grants, s, org, doc, high)
    requires low.Level? && (high.Level? ==> Weight(low.permission) <= Weight(high.permission))
    requires high.Other? ==> low == Level(READ)
    ensures CanAccess(docs, grants, s, org, doc, low)
  {
    if !Manages(s.role) {
      var d :| d in docs && d.id == doc && d.organizationId == org && MayUse(grants, d, s, high);
      assert MayUse(grants, d, s, low) by {
        if g :| g in grants && g.documentId == d.id && Covers(g, s, high) {
          assert Covers(g, s, low);
        }
      }
    }
  }

  /** For a document of another organization the check passes exactly for owners and admins of the
      organization asked about: it never looks up the document for them. So do granting and revoking,
      which rest on the check alone. */
  lemma OtherOrganizationIff(docs: seq<Document>, grants: seq<Grant>, s: Subject, org: string, d: Document,
      level: Level)
    requires DistinctDocs(docs) && d in docs && d.organizationId != org
    ensures CanAccess(docs, grants, s, org, d.id, level) <==> Manages(s.role)
  {
    forall e | e in docs && e.id == d.id ensures e == d {
      SameDocument(docs, e, d);
    }
  }

  // ---- Granting ----

  lemma MayUseAfterGrant(grants: seq<Grant>, g: Grant, d: Document, s: Subject, level: Level)
    ensures MayUse(grants + [g], d, s, level)
       <==> || d.userId == s.userId
            || (g.documentId == d.id && Covers(g, s, level))
            || (g.documentId != d.id && MayUse(grants, d, s, level))
            || (exists h :: h in grants && h.documentId == d.id && Covers(h, s, level))
  {
    hide Covers, ByDefault;
    assert forall h :: h in grants + [g] <==> h in grants || h == g;
    if MayUse(grants + [g], d, s, level) && g.documentId == d.id {
      assert g in grants + [g];
    }
  }

  /** A grant takes access away from someone exactly when it is the document's first, they had access by
      default only, and it does not cover them. */
  lemma GrantTakesAwayIff(docs: seq<Document>, grants: seq<Grant>, g: Grant, d: Document, s: Subject, level: Level)
    requires DistinctDocs(docs) && d in docs
    ensures (CanAccess(docs, grants, s, d.organizationId, d.id, level)
             && !CanAccess(docs, grants + [g], s, d.organizationId, d.id, level))
       <==> && g.documentId == d.id && (forall h | h in grants :: h.documentId != d.id)
            && !Manages(s.role) && d.userId != s.userId && ByDefault(s.role, level) && !Covers(g, s, level)
  {
    hide Covers, ByDefault;
    forall e | e in docs && e.id == d.id ensures e == d {
      SameDocument(docs, e, d);
    }
    MayUseAfterGrant(grants, g, d, s, level);
  }

  /** In particular, a further grant on a document never removes anyone's access to any document. */
  lemma FurtherGrantOnlyAdds(docs: seq<Document>, grants: seq<Grant>, g: Grant, s: Subject, org: string, doc: string,
      level: Level)
    requires exists h :: h in grants && h.documentId == g.documentId
    requires CanAccess(docs, grants, s, org, doc, level)
    ensures CanAccess(docs, grants + [g], s, org, doc, level)
  {
    hide Covers, ByDefault;
    if !Manages(s.role) {
      var d :| d in docs && d.id == doc && d.organizationId == org && MayUse(grants, d, s, level);
      MayUseAfterGrant(grants, g, d, s, level);
    }
  }

  /** Whoever may manage a document's grants still may once another grant is made. */
  lemma GrantingKeepsManagement(docs: seq<Document>, grants: seq<Grant>, g: Grant, s: Subject, org: string, doc: string)
    requires CanAccess(docs, grants, s, org, doc, Level(FULL))
    ensures CanAccess(docs, grants + [g], s, org, doc, Level(FULL))
  {
    hide Covers;
    if !Manages(s.role) {
      var d :| d in docs && d.id == doc && d.organizationId == org && MayUse(grants, d, s, Level(FULL));
      MayUseAfterGrant(grants, g, d, s, Level(FULL));
    }
  }

  /** So a grant can always be taken back by whoever made it, which restores the tables, and with them
      everyone's access. */
  lemma RevokeUndoesGrant(docs: seq<Document>, grants: seq<Grant>, g: Grant, s: Subject, org: string)
    requires DistinctGrants(grants) && forall h | h in grants :: h.id != g.id
    requires CanAccess(docs, grants, s, org, g.documentId, Level(FULL))
    ensures CanAccess(docs, grants + [g], s, org, g.documentId, Level(FULL))
    ensures Revoked(grants + [g], g.id) == grants
  {
    GrantingKeepsManagement(docs, grants, g, s, org, g.documentId);
    var after := grants + [g];
    assert forall i | 0 <= i < |grants| :: grants[i] in grants;
    RevokedAt(after, |grants|);
    assert after[..|grants|] + after[|grants| + 1..] == grants;
  }

  // ---- What the levels give ----

  /** A grant that names the subject: to the user, to the role, or to the whole organization. */
  predicate Names(g: Grant, s: Subject) {
    || g.grantee == ToOrganization
    || g.grantee == ToUser(Some(s.userId))
    || g.grantee == ToRole(Some(s.role))
  }

  /** What someone who neither manages the organization nor created the document may do. Without grants
      everyone reads, everyone but a viewer writes, and nobody manages. With grants a READ grant gives
      reading only, a WRITE grant writing too, and only the highest gives managing. */
  lemma WhatTheLevelsGive(docs: seq<Document>, grants: seq<Grant>, s: Subject, d: Document)
    requires DistinctDocs(docs) && d in docs
    requires s.role != Membership.OWNER && s.role != Membership.ADMIN && d.userId != s.userId
    ensures var open := forall g | g in grants :: g.documentId != d.id;
      && (CanAccess(docs, grants, s, d.organizationId, d.id, Level(READ))
          <==> open || exists g :: g in grants && g.documentId == d.id && Names(g, s))
      && (CanAccess(docs, grants, s, d.organizationId, d.id, Level(WRITE))
          <==> (open && s.role != Membership.VIEWER)
               || exists g :: g in grants && g.documentId == d.id && Names(g, s) && g.permission != READ)
      && (CanAccess(docs, grants, s, d.organizationId, d.id, Level(FULL))
          <==> exists g :: g in grants && g.documentId == d.id && Names(g, s) && g.permission == FULL)
      && (CanAccess(docs, grants, s, d.organizationId, d.id, Other)
          <==> exists g :: g in grants && g.documentId == d.id && Names(g, s))
  {
    forall e | e in docs && e.id == d.id ensures e == d {
      SameDocument(docs, e, d);
    }
    forall level ensures CanAccess(docs, grants, s, d.organizationId, d.id, level) <==> MayUse(grants, d, s, level) {
    }
    forall g {
      CoversMeans(g, s);
    }
    hide Covers, CanAccess;
  }

  lemma CoversMeans(g: Grant, s: Subject)
    ensures Covers(g, s, Level(READ)) <==> Names(g, s)
    ensures Covers(g, s, Other) <==> Names(g, s)
    ensures Covers(g, s, Level(WRITE)) <==> Names(g, s) && g.permission != READ
    ensures Covers(g, s, Level(FULL)) <==> Names(g, s) && g.permission == FULL
  {
  }

  /** The creator of a document and those who manage the organization may do everything. */
  lemma CreatorsAndManagers(docs: seq<Document>, grants: seq<Grant>, s: Subject, d: Document, level: Level)
    requires d in docs && (d.userId == s.userId || s.role == Membership.OWNER || s.role == Membership.ADMIN)
    ensures CanAccess(docs, grants, s, d.organizationId, d.id, level)
  {
  }
}

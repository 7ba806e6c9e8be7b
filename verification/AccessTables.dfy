/** The tables authorization is decided from, and the consistency their writers keep. */
module AccessTables {
  import opened Wrappers
  import opened Permissions
  import opened Keys

  // Identifiers are opaque in the program; numbers stand for them here.
  type TenantId = nat
  type UserId = nat
  type OrgId = nat
  type MembershipId = nat
  type RoleId = nat
  type CollectionId = nat
  type AssignmentId = nat

  datatype WorkspaceScope = TenantWide | AssignedOrganizations
  datatype AccessMode = AllAuthorized | AssignedOnly
  datatype RoleScope = TenantScope | OrganizationScope | CollectionScope

  datatype Installation = Installation(tenant: TenantId, owner: UserId)
  datatype User = User(serviceAccount: bool, active: bool)
  datatype Organization = Organization(tenant: TenantId, archived: bool, accessMode: AccessMode)
  datatype Membership = Membership(
    tenant: TenantId, user: UserId, role: BuiltInRole, scope: WorkspaceScope, organization: Option<OrgId>)
  datatype StaffAssignment = StaffAssignment(tenant: TenantId, organization: OrgId, membership: MembershipId)
  datatype CustomRole = CustomRole(
    tenant: TenantId, nameKey: string, scope: RoleScope, archived: bool, permissions: set<Permission>)
  datatype Collection = Collection(tenant: TenantId, nameKey: string, archived: bool)
  datatype CollectionEdge = CollectionEdge(tenant: TenantId, collection: CollectionId, organization: OrgId)
  datatype ScopedAssignment = ScopedAssignment(
    tenant: TenantId, membership: MembershipId, role: RoleId,
    organization: Option<OrgId>, collection: Option<CollectionId>)

  datatype Db = Db(
    installation: Option<Installation>,
    users: map<UserId, User>,
    organizations: map<OrgId, Organization>,
    memberships: map<MembershipId, Membership>,
    staff: set<StaffAssignment>,
    roles: map<RoleId, CustomRole>,
    collections: map<CollectionId, Collection>,
    edges: set<CollectionEdge>,
    assignments: map<AssignmentId, ScopedAssignment>)

  const EMPTY_DB := Db(None, map[], map[], map[], {}, map[], map[], {}, map[])

  // The check constraints of the membership table.
  predicate MembershipRowOk(m: Membership) {
    && !m.role.Owner?
    && (ClientRole(m.role) <==> m.organization.Some?)
    && (ClientRole(m.role) ==> m.scope.TenantWide?)
  }

  ghost predicate OneMembershipPerUser(db: Db) {
    forall a, b | a in db.memberships && b in db.memberships
                  && db.memberships[a].tenant == db.memberships[b].tenant
                  && db.memberships[a].user == db.memberships[b].user :: a == b
  }

  ghost predicate MembershipsOk(db: Db) {
    && OneMembershipPerUser(db)
    && forall m | m in db.memberships :: MembershipRowOk(db.memberships[m]) && db.memberships[m].user in db.users
  }

  predicate StaffRowOk(db: Db, s: StaffAssignment) {
    && s.membership in db.memberships && db.memberships[s.membership].tenant == s.tenant
    && s.organization in db.organizations && db.organizations[s.organization].tenant == s.tenant
  }

  predicate EdgeOk(db: Db, e: CollectionEdge) {
    && e.collection in db.collections && db.collections[e.collection].tenant == e.tenant
    && e.organization in db.organizations && db.organizations[e.organization].tenant == e.tenant
  }

  // A target matches the scope of the assigned role, and every row named shares one tenant.
  predicate AssignmentOk(db: Db, a: ScopedAssignment) {
    && a.membership in db.memberships && db.memberships[a.membership].tenant == a.tenant
    && a.role in db.roles && db.roles[a.role].tenant == a.tenant
    && (a.organization.Some? <==> db.roles[a.role].scope.OrganizationScope?)
    && (a.collection.Some? <==> db.roles[a.role].scope.CollectionScope?)
    && (a.organization.Some? ==>
          a.organization.value in db.organizations && db.organizations[a.organization.value].tenant == a.tenant)
    && (a.collection.Some? ==>
          a.collection.value in db.collections && db.collections[a.collection.value].tenant == a.tenant)
  }

  // Rows point at rows that exist, in one tenant, with targets that match their role's scope.
  ghost predicate Linked(db: Db) {
    && (db.installation.Some? ==> db.installation.value.owner in db.users)
    && MembershipsOk(db)
    && (forall s | s in db.staff :: StaffRowOk(db, s))
    && (forall e | e in db.edges :: EdgeOk(db, e))
    && (forall a | a in db.assignments :: AssignmentOk(db, db.assignments[a]))
  }

  // Every stored custom-role permission is one a custom role may carry.
  ghost predicate WithinCeiling(db: Db) {
    forall r, p | r in db.roles && p in db.roles[r].permissions :: CustomRoleAssignable(p)
  }

  ghost predicate Consistent(db: Db) {
    Linked(db) && WithinCeiling(db)
  }

  function MembershipOf(db: Db, tenant: TenantId, user: UserId): Option<MembershipId> {
    var found := set m | m in db.memberships
                         && db.memberships[m].tenant == tenant && db.memberships[m].user == user;
    First(found)
  }

  lemma MembershipOfIsTheOne(db: Db, m: MembershipId)
    requires OneMembershipPerUser(db) && m in db.memberships
    ensures MembershipOf(db, db.memberships[m].tenant, db.memberships[m].user) == Some(m)
  {
    var tenant, user := db.memberships[m].tenant, db.memberships[m].user;
    var found := set k | k in db.memberships
                         && db.memberships[k].tenant == tenant && db.memberships[k].user == user;
    assert m in found;
    assert First(found) == Some(m);
  }
}

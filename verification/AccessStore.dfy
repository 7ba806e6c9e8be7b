/** The access tables as one mutable store, and the operations that write them in place. */
module AccessStore {
  import opened Wrappers
  import opened Permissions
  import opened AccessTables
  import opened Policy
  import opened AccessSteps
  import opened AccessProofs
  import opened Text

  class Store {
    var installation: Option<Installation>
    var users: map<UserId, User>
    var organizations: map<OrgId, Organization>
    var memberships: map<MembershipId, Membership>
    var staff: set<StaffAssignment>
    var roles: map<RoleId, CustomRole>
    var collections: map<CollectionId, Collection>
    var edges: set<CollectionEdge>
    var assignments: map<AssignmentId, ScopedAssignment>

    function Tables(): Db
      reads this
    {
      Db(installation, users, organizations, memberships, staff, roles, collections, edges, assignments)
    }

    constructor ()
      ensures Tables() == EMPTY_DB && Consistent(Tables())
    {
      installation, users, organizations, memberships := None, map[], map[], map[];
      staff, roles, collections, edges, assignments := {}, map[], map[], {}, map[];
    }

    function Require(actor: Actor, p: Permission): Result<Context, PolicyError>
      reads this
    {
      RequirePermission(Tables(), actor.user, actor.token, actor.hasTotp, p)
    }

    method BootstrapOwner(tenant: TenantId, owner: UserId, membership: MembershipId) returns (outcome: Outcome)
      modifies this`installation, this`users, this`memberships
      ensures Effect(Tables(), outcome) == Apply(old(Tables()), Bootstrap(tenant, owner, membership))
      ensures Consistent(old(Tables())) ==> Consistent(Tables())
    {
      ApplyKeepsConsistent(Tables(), Bootstrap(tenant, owner, membership));
      hide Consistent, Decision, ContextHasPermission;
      if installation.Some? || users != map[] {
        return Conflict;
      }
      if membership in memberships {
        return ConstraintViolated;
      }
      users := users[owner := User(false, true)];
      memberships := memberships[membership := Membership(tenant, owner, ReadOnly, TenantWide, None)];
      installation := Some(Installation(tenant, owner));
      return Done;
    }

    method CreateCustomRole(actor: Actor, r: RoleId, name: string, scope: RoleScope, permissions: set<Permission>)
      returns (outcome: Outcome)
      modifies this`roles
      ensures Effect(Tables(), outcome) == Apply(old(Tables()), CreateRole(actor, r, name, scope, permissions))
      ensures Consistent(old(Tables())) ==> Consistent(Tables())
    {
      ApplyKeepsConsistent(Tables(), CreateRole(actor, r, name, scope, permissions));
      hide Consistent, Decision, ContextHasPermission;
      var access := Require(actor, CUSTOM_ROLES_MANAGE);
      if access.Err? {
        return Denied(access.error);
      }
      var tenant := access.value.tenant;
      if !Delegable(permissions) || !RoleNameAccepted(name) {
        return Invalid;
      }
      var nameKey := Collapsed(name);
      if RoleNameTaken(Tables(), tenant, scope, nameKey, r) {
        return Invalid;
      }
      if r in roles {
        return ConstraintViolated;
      }
      roles := roles[r := CustomRole(tenant, nameKey, scope, false, permissions)];
      return Done;
    }

    method UpdateCustomRole(actor: Actor, r: RoleId, name: string, permissions: set<Permission>)
      returns (outcome: Outcome)
      modifies this`roles
      ensures Effect(Tables(), outcome) == Apply(old(Tables()), UpdateRole(actor, r, name, permissions))
      ensures Consistent(old(Tables())) ==> Consistent(Tables())
    {
      ApplyKeepsConsistent(Tables(), UpdateRole(actor, r, name, permissions));
      hide Consistent, Decision, ContextHasPermission;
      var access := Require(actor, CUSTOM_ROLES_MANAGE);
      if access.Err? {
        return Denied(access.error);
      }
      if !Delegable(permissions) {
        return Invalid;
      }
      if !ActiveRole(Tables(), access.value.tenant, r) {
        return NotFound;
      }
      var role := roles[r];
      var nameKey := Collapsed(name);
      if !RoleNameAccepted(name) || RoleNameTaken(Tables(), access.value.tenant, role.scope, nameKey, r) {
        return Invalid;
      }
      role := role.(nameKey := nameKey);
      role := role.(permissions := permissions);
      roles := roles[r := role];
      return Done;
    }

    method ArchiveCustomRole(actor: Actor, r: RoleId) returns (outcome: Outcome)
      modifies this`roles
      ensures Effect(Tables(), outcome) == Apply(old(Tables()), ArchiveRole(actor, r))
      ensures Consistent(old(Tables())) ==> Consistent(Tables())
    {
      ApplyKeepsConsistent(Tables(), ArchiveRole(actor, r));
      hide Consistent, Decision, ContextHasPermission;
      var access := Require(actor, CUSTOM_ROLES_MANAGE);
      if access.Err? {
        return Denied(access.error);
      }
      if !ActiveRole(Tables(), access.value.tenant, r) {
        return NotFound;
      }
      roles := roles[r := roles[r].(archived := true)];
      return Done;
    }

    method CreateScopedAssignment(
      actor: Actor, a: AssignmentId, member: UserId, r: RoleId,
      organization: Option<OrgId>, collection: Option<CollectionId>) returns (outcome: Outcome)
      modifies this`assignments
      ensures Effect(Tables(), outcome) ==
              Apply(old(Tables()), AssignRole(actor, a, member, r, organization, collection))
      ensures Consistent(old(Tables())) ==> Consistent(Tables())
    {
      ApplyKeepsConsistent(Tables(), AssignRole(actor, a, member, r, organization, collection));
      hide Consistent, Decision, ContextHasPermission;
      var access := Require(actor, CUSTOM_ROLES_ASSIGN);
      if access.Err? {
        return Denied(access.error);
      }
      var tenant := access.value.tenant;
      var membership := MembershipOf(Tables(), tenant, member);
      if membership.None? {
        return NotFound;
      }
      if installation.Some? && installation.value.owner == member {
        return Invalid;
      }
      if !ActiveRole(Tables(), tenant, r) {
        return NotFound;
      }
      if roles[r].scope.OrganizationScope? {
        if organization.None? || collection.Some? {
          return Invalid;
        }
        if !LiveOrganization(Tables(), tenant, organization.value) {
          return NotFound;
        }
      } else if roles[r].scope.CollectionScope? {
        if collection.None? || organization.Some? {
          return Invalid;
        }
        if !ActiveCollection(Tables(), tenant, collection.value) {
          return NotFound;
        }
      } else if organization.Some? || collection.Some? {
        return Invalid;
      }
      var row := ScopedAssignment(tenant, membership.value, r, organization, collection);
      if exists k | k in assignments :: assignments[k] == row {
        return Unchanged;
      }
      if a in assignments {
        return ConstraintViolated;
      }
      assignments := assignments[a := row];
      return Done;
    }

    method RemoveScopedAssignment(actor: Actor, a: AssignmentId) returns (outcome: Outcome)
      modifies this`assignments
      ensures Effect(Tables(), outcome) == Apply(old(Tables()), RemoveAssignment(actor, a))
      ensures Consistent(old(Tables())) ==> Consistent(Tables())
    {
      ApplyKeepsConsistent(Tables(), RemoveAssignment(actor, a));
      hide Consistent, Decision, ContextHasPermission;
      var access := Require(actor, CUSTOM_ROLES_ASSIGN);
      if access.Err? {
        return Denied(access.error);
      }
      if a !in assignments || assignments[a].tenant != access.value.tenant {
        return NotFound;
      }
      assignments := assignments - {a};
      return Done;
    }

    method AssignBuiltInRole(actor: Actor, member: UserId, role: BuiltInRole) returns (outcome: Outcome)
      modifies this`memberships
      ensures Effect(Tables(), outcome) == Apply(old(Tables()), AssignMembershipRole(actor, member, role))
      ensures Consistent(old(Tables())) ==> Consistent(Tables())
    {
      ApplyKeepsConsistent(Tables(), AssignMembershipRole(actor, member, role));
      hide Consistent, Decision, ContextHasPermission;
      var access := Require(actor, MEMBERSHIPS_ASSIGN_ROLE);
      if access.Err? {
        return Denied(access.error);
      }
      if !TenantAssignable(role) || member == actor.user {
        return Invalid;
      }
      var membership := MembershipOf(Tables(), access.value.tenant, member);
      if membership.None? || IsServiceAccount(Tables(), member) {
        return NotFound;
      }
      var row := memberships[membership.value];
      if row.role == role {
        return Unchanged;
      }
      row := row.(role := role);
      if !MembershipRowOk(row) {
        return ConstraintViolated;
      }
      memberships := memberships[membership.value := row];
      return Done;
    }

    method AssignScope(actor: Actor, member: UserId, scope: WorkspaceScope) returns (outcome: Outcome)
      modifies this`memberships
      ensures Effect(Tables(), outcome) == Apply(old(Tables()), AssignWorkspaceScope(actor, member, scope))
      ensures Consistent(old(Tables())) ==> Consistent(Tables())
    {
      ApplyKeepsConsistent(Tables(), AssignWorkspaceScope(actor, member, scope));
      hide Consistent, Decision, ContextHasPermission;
      var access := Require(actor, MEMBERSHIPS_ASSIGN_ROLE);
      if access.Err? {
        return Denied(access.error);
      }
      if member == actor.user {
        return Invalid;
      }
      var membership := MembershipOf(Tables(), access.value.tenant, member);
      if membership.None? || IsServiceAccount(Tables(), member) || memberships[membership.value].organization.Some? {
        return NotFound;
      }
      var row := memberships[membership.value];
      if row.scope == scope {
        return Unchanged;
      }
      row := row.(scope := scope);
      if !MembershipRowOk(row) {
        return ConstraintViolated;
      }
      memberships := memberships[membership.value := row];
      return Done;
    }

    method ChangeOrganizationAccessMode(actor: Actor, o: OrgId, mode: AccessMode) returns (outcome: Outcome)
      modifies this`organizations
      ensures Effect(Tables(), outcome) == Apply(old(Tables()), ChangeAccessMode(actor, o, mode))
      ensures Consistent(old(Tables())) ==> Consistent(Tables())
    {
      ApplyKeepsConsistent(Tables(), ChangeAccessMode(actor, o, mode));
      hide Consistent, Decision, ContextHasPermission;
      var access := Require(actor, ORGANIZATIONS_MANAGE_ACCESS);
      if access.Err? {
        return Denied(access.error);
      }
      if !LiveOrganization(Tables(), access.value.tenant, o) {
        return NotFound;
      }
      if organizations[o].accessMode == mode {
        return Unchanged;
      }
      organizations := organizations[o := organizations[o].(accessMode := mode)];
      return Done;
    }

    method AssignOrganizationStaff(actor: Actor, o: OrgId, member: UserId) returns (outcome: Outcome)
      modifies this`staff
      ensures Effect(Tables(), outcome) == Apply(old(Tables()), AssignStaff(actor, o, member))
      ensures Consistent(old(Tables())) ==> Consistent(Tables())
    {
      ApplyKeepsConsistent(Tables(), AssignStaff(actor, o, member));
      hide Consistent, Decision, ContextHasPermission;
      var access := Require(actor, ORGANIZATIONS_ASSIGN_STAFF);
      if access.Err? {
        return Denied(access.error);
      }
      var tenant := access.value.tenant;
      if !LiveOrganization(Tables(), tenant, o) {
        return NotFound;
      }
      if installation.Some? && installation.value.owner == member {
        return Invalid;
      }
      var membership := MembershipOf(Tables(), tenant, member);
      if membership.None? || IsServiceAccount(Tables(), member) {
        return NotFound;
      }
      if StaffAssignment(tenant, o, membership.value) in staff {
        return Unchanged;
      }
      staff := staff + {StaffAssignment(tenant, o, membership.value)};
      return Done;
    }

    method RemoveOrganizationStaff(actor: Actor, o: OrgId, member: UserId) returns (outcome: Outcome)
      modifies this`staff
      ensures Effect(Tables(), outcome) == Apply(old(Tables()), RemoveStaff(actor, o, member))
      ensures Consistent(old(Tables())) ==> Consistent(Tables())
    {
      ApplyKeepsConsistent(Tables(), RemoveStaff(actor, o, member));
      hide Consistent, Decision, ContextHasPermission;
      var access := Require(actor, ORGANIZATIONS_ASSIGN_STAFF);
      if access.Err? {
        return Denied(access.error);
      }
      var tenant := access.value.tenant;
      if !LiveOrganization(Tables(), tenant, o) {
        return NotFound;
      }
      var membership := MembershipOf(Tables(), tenant, member);
      if membership.None? || StaffAssignment(tenant, o, membership.value) !in staff {
        return Unchanged;
      }
      staff := staff - {StaffAssignment(tenant, o, membership.value)};
      return Done;
    }

    // Deletes the edges that are no longer selected, then inserts the selected ones that are missing.
    method ReplaceOrganizations(tenant: TenantId, c: CollectionId, selected: seq<OrgId>)
      modifies this`edges
      ensures edges == ReplacedEdges(old(edges), tenant, c, selected)
    {
      var existing := set e | e in edges && e.tenant == tenant && e.collection == c :: e.organization;
      var removed := existing - set o | o in selected;
      edges := set e | e in edges && !(e.tenant == tenant && e.collection == c && e.organization in removed);
      var i := 0;
      while i < |selected|
        invariant 0 <= i <= |selected|
        invariant forall e | e in edges ::
                    || (e in old(edges) && !(e.tenant == tenant && e.collection == c))
                    || (e.tenant == tenant && e.collection == c && e.organization in selected)
        invariant forall e | e in old(edges) && !(e.tenant == tenant && e.collection == c) :: e in edges
        invariant forall e | e in old(edges) && e.tenant == tenant && e.collection == c && e.organization in selected ::
                    e in edges
        invariant forall k | 0 <= k < i :: CollectionEdge(tenant, c, selected[k]) in edges
      {
        if selected[i] !in existing {
          edges := edges + {CollectionEdge(tenant, c, selected[i])};
        }
        i := i + 1;
      }
      assert forall o | o in selected :: CollectionEdge(tenant, c, o) in edges;
    }

    method CreateAccessCollection(actor: Actor, c: CollectionId, name: string, selected: seq<OrgId>)
      returns (outcome: Outcome)
      modifies this`collections, this`edges
      ensures Effect(Tables(), outcome) == Apply(old(Tables()), CreateCollection(actor, c, name, selected))
      ensures Consistent(old(Tables())) ==> Consistent(Tables())
    {
      ApplyKeepsConsistent(Tables(), CreateCollection(actor, c, name, selected));
      hide Consistent, Decision, ContextHasPermission, ReplacedEdges, Collapsed, NoDuplicates,
           OrganizationsUsable, CollectionNameTaken;
      var access := Require(actor, ACCESS_COLLECTIONS_MANAGE);
      if access.Err? {
        return Denied(access.error);
      }
      var tenant := access.value.tenant;
      var nameKey := Collapsed(name);
      if nameKey == "" || !NoDuplicates(selected) {
        return Invalid;
      }
      if !OrganizationsUsable(Tables(), tenant, selected) {
        return NotFound;
      }
      if |nameKey| > MAX_NAME || CollectionNameTaken(Tables(), tenant, nameKey, c) {
        return Invalid;
      }
      if c in collections {
        return ConstraintViolated;
      }
      collections := collections[c := Collection(tenant, nameKey, false)];
      ReplaceOrganizations(tenant, c, selected);
      return Done;
    }

    method UpdateAccessCollection(actor: Actor, c: CollectionId, name: string, selected: seq<OrgId>)
      returns (outcome: Outcome)
      modifies this`collections, this`edges
      ensures Effect(Tables(), outcome) == Apply(old(Tables()), UpdateCollection(actor, c, name, selected))
      ensures Consistent(old(Tables())) ==> Consistent(Tables())
    {
      ApplyKeepsConsistent(Tables(), UpdateCollection(actor, c, name, selected));
      hide Consistent, Decision, ContextHasPermission, ReplacedEdges, Collapsed, NoDuplicates,
           OrganizationsUsable, CollectionNameTaken;
      var access := Require(actor, ACCESS_COLLECTIONS_MANAGE);
      if access.Err? {
        return Denied(access.error);
      }
      var tenant := access.value.tenant;
      var nameKey := Collapsed(name);
      if nameKey == "" || !NoDuplicates(selected) {
        return Invalid;
      }
      if !OrganizationsUsable(Tables(), tenant, selected) || !ActiveCollection(Tables(), tenant, c) {
        return NotFound;
      }
      if |nameKey| > MAX_NAME || CollectionNameTaken(Tables(), tenant, nameKey, c) {
        return Invalid;
      }
      collections := collections[c := collections[c].(nameKey := nameKey)];
      ReplaceOrganizations(tenant, c, selected);
      return Done;
    }

    method ArchiveAccessCollection(actor: Actor, c: CollectionId) returns (outcome: Outcome)
      modifies this`collections
      ensures Effect(Tables(), outcome) == Apply(old(Tables()), ArchiveCollection(actor, c))
      ensures Consistent(old(Tables())) ==> Consistent(Tables())
    {
      ApplyKeepsConsistent(Tables(), ArchiveCollection(actor, c));
      hide Consistent, Decision, ContextHasPermission;
      var access := Require(actor, ACCESS_COLLECTIONS_MANAGE);
      if access.Err? {
        return Denied(access.error);
      }
      if !ActiveCollection(Tables(), access.value.tenant, c) {
        return NotFound;
      }
      collections := collections[c := collections[c].(archived := true)];
      return Done;
    }
  }
}

/** The decision and every access operation once more, by the stored rows alone: who may act, and what is left behind. */
module AccessEffects {
  import opened Wrappers
  import opened Permissions
  import opened AccessTables
  import opened Policy
  import opened AccessSteps
  import opened AccessProofs
  import opened Text

  // ---- The decision, row by row ----

  // A membership row of the installation's tenant that is not its owner's.
  predicate OrdinaryMember(db: Db, m: MembershipId) {
    && db.installation.Some? && m in db.memberships
    && db.memberships[m].tenant == db.installation.value.tenant
    && db.memberships[m].user != db.installation.value.owner
  }

  // The member's own row, or a staff row, opens the organization; the tenant as a whole is open to tenant-wide members.
  predicate Reaches(db: Db, m: MembershipId, organization: Option<OrgId>)
    requires m in db.memberships
  {
    var row := db.memberships[m];
    match organization
    case None => row.scope.TenantWide?
    case Some(o) =>
      && o in db.organizations && db.organizations[o].tenant == row.tenant && !db.organizations[o].archived
      && (|| StaffAssignment(row.tenant, o, m) in db.staff
          || (row.scope.TenantWide? && db.organizations[o].accessMode.AllAuthorized?))
  }

  // The assignment stands for the whole tenant, for this organization, or for a live collection that lists it.
  predicate Covers(db: Db, a: ScopedAssignment, organization: Option<OrgId>) {
    || (a.organization.None? && a.collection.None?)
    || (organization.Some? && a.organization == organization)
    || (&& organization.Some? && a.collection.Some?
        && a.collection.value in db.collections && !db.collections[a.collection.value].archived
        && CollectionEdge(a.tenant, a.collection.value, organization.value) in db.edges)
  }

  predicate Assigned(db: Db, m: MembershipId, p: Permission, organization: Option<OrgId>) {
    exists a | a in db.assignments ::
      && db.assignments[a].membership == m
      && db.assignments[a].role in db.roles
      && !db.roles[db.assignments[a].role].archived && p in db.roles[db.assignments[a].role].permissions
      && Covers(db, db.assignments[a], organization)
  }

  lemma AssignedExactly(db: Db, ctx: Context, p: Permission, organization: Option<OrgId>)
    requires Linked(db) && ctx.membership.Some? && ctx.membership.value in db.memberships
    requires db.memberships[ctx.membership.value].tenant == ctx.tenant
    ensures CustomPermissionExists(db, ctx, p, organization) <==> Assigned(db, ctx.membership.value, p, organization)
  {
    forall a | a in db.assignments && db.assignments[a].membership == ctx.membership.value
      ensures AssignmentGrants(db, ctx, db.assignments[a], p, organization)
         <==> && db.assignments[a].role in db.roles
              && !db.roles[db.assignments[a].role].archived && p in db.roles[db.assignments[a].role].permissions
              && Covers(db, db.assignments[a], organization) {
      AssignmentReadAlike(db, ctx, db.assignments[a], p, organization);
    }
  }

  lemma AssignmentReadAlike(db: Db, ctx: Context, a: ScopedAssignment, p: Permission, organization: Option<OrgId>)
    requires Linked(db) && AssignmentOk(db, a) && Some(a.membership) == ctx.membership
    requires db.memberships[a.membership].tenant == ctx.tenant
    ensures AssignmentGrants(db, ctx, a, p, organization)
       <==> && a.role in db.roles && !db.roles[a.role].archived && p in db.roles[a.role].permissions
            && Covers(db, a, organization)
  {
    if a.collection.Some? && organization.Some? && InCollection(db, a.collection.value, organization.value) {
      var e :| e in db.edges && e.collection == a.collection.value && e.organization == organization.value;
      assert EdgeOk(db, e);
      assert e == CollectionEdge(a.tenant, a.collection.value, organization.value);
    }
  }

  /** Without a token, a member other than the owner may do something somewhere exactly when its stored row is not a
      client's, it reaches the place, and its role or an assignment that covers the place carries the permission. */
  lemma MemberDecision(db: Db, m: MembershipId, p: Permission, organization: Option<OrgId>)
    requires Linked(db) && OrdinaryMember(db, m)
    ensures Decision(db, db.memberships[m].user, None, p, organization)
       <==> && !ClientRole(db.memberships[m].role) && Reaches(db, m, organization)
            && (RoleGrants(db.memberships[m].role, p) || Assigned(db, m, p, organization))
  {
    var row := db.memberships[m];
    MembershipOfIsTheOne(db, m);
    var ctx := RequireInstallationMember(db, row.user, None).value;
    AssignedExactly(db, ctx, p, organization);
    if organization.Some? {
      StaffedExactly(db, ctx, m, organization.value);
    }
    hide Linked, CustomPermissionExists, Assigned, RoleGrants, MembershipOf, StaffedByUser;
  }

  lemma StaffedExactly(db: Db, ctx: Context, m: MembershipId, o: OrgId)
    requires Linked(db) && m in db.memberships
    requires ctx.tenant == db.memberships[m].tenant && ctx.user == db.memberships[m].user
    ensures StaffedByUser(db, ctx, o) <==> StaffAssignment(ctx.tenant, o, m) in db.staff
  {
    if StaffedByUser(db, ctx, o) {
      var s :| && s in db.staff && s.tenant == ctx.tenant && s.organization == o
               && s.membership in db.memberships && db.memberships[s.membership].user == ctx.user;
      assert StaffRowOk(db, s);
      assert s == StaffAssignment(ctx.tenant, o, m);
    }
  }

  /** A member who works on assigned organizations only is never allowed anything tenant-wide, and nothing in an
      organization it is not staffed on, whatever its roles. */
  lemma AssignedOnlyNeedsStaffRow(db: Db, m: MembershipId, token: Option<BearerToken>, p: Permission, o: OrgId)
    requires Linked(db) && OrdinaryMember(db, m)
    requires db.memberships[m].scope.AssignedOrganizations?
    ensures !Decision(db, db.memberships[m].user, token, p, None)
    ensures Decision(db, db.memberships[m].user, token, p, Some(o)) ==>
              StaffAssignment(db.memberships[m].tenant, o, m) in db.staff
  {
    WithoutToken(db, db.memberships[m].user, token, p, None);
    WithoutToken(db, db.memberships[m].user, token, p, Some(o));
    hide Linked, Decision;
    MemberDecision(db, m, p, None);
    MemberDecision(db, m, p, Some(o));
  }

  lemma WithoutToken(db: Db, user: UserId, token: Option<BearerToken>, p: Permission, organization: Option<OrgId>)
    ensures Decision(db, user, token, p, organization) ==> Decision(db, user, None, p, organization)
  {
  }

  // A role held for the whole tenant.
  predicate HoldsTenantRole(db: Db, m: MembershipId, p: Permission) {
    exists a | a in db.assignments ::
      && db.assignments[a].membership == m && db.assignments[a].role in db.roles
      && db.roles[db.assignments[a].role].scope.TenantScope?
      && !db.roles[db.assignments[a].role].archived && p in db.roles[db.assignments[a].role].permissions
  }

  /** A tenant-wide member that is not a client's is allowed something tenant-wide exactly by the role of its stored row
      or by a live tenant role assigned to it. */
  lemma TenantWideByRoleOrTenantRole(db: Db, m: MembershipId, p: Permission)
    requires Linked(db) && OrdinaryMember(db, m)
    requires db.memberships[m].scope.TenantWide? && !ClientRole(db.memberships[m].role)
    ensures Decision(db, db.memberships[m].user, None, p, None)
       <==> RoleGrants(db.memberships[m].role, p) || HoldsTenantRole(db, m, p)
  {
    MemberDecision(db, m, p, None);
    assert forall a | a in db.assignments :: AssignmentOk(db, db.assignments[a]);
    hide Linked, Decision, RoleGrants;
    assert Assigned(db, m, p, None) <==> HoldsTenantRole(db, m, p);
  }

  /** Nobody but the owner and the members of the installation's tenant is allowed anything; without an installation
      nobody is. */
  lemma StrangersAreRefused(db: Db, user: UserId, token: Option<BearerToken>, p: Permission, organization: Option<OrgId>)
    requires Decision(db, user, token, p, organization)
    ensures db.installation.Some?
    ensures user != db.installation.value.owner ==>
              exists m | m in db.memberships :: db.memberships[m].user == user
                                                && db.memberships[m].tenant == db.installation.value.tenant
  {
    var ctx := RequireInstallationMember(db, user, token).value;
    hide ContextHasPermission, TokenAllows;
    if user != db.installation.value.owner {
      assert ctx.membership.value in db.memberships;
    }
  }

  /** Why an access is refused: there is no installation, the user is no member, only the second factor is missing, or
      the permission is not held tenant-wide. */
  lemma RefusedBecause(db: Db, user: UserId, token: Option<BearerToken>, hasTotp: bool, p: Permission)
    requires Linked(db)
    ensures var access := RequirePermission(db, user, token, hasTotp, p);
            && (access == Err(ContextUnavailable) <==> db.installation.None?)
            && (access == Err(MembershipRequired) <==>
                  && db.installation.Some? && user != db.installation.value.owner
                  && forall m | m in db.memberships && db.memberships[m].tenant == db.installation.value.tenant ::
                       db.memberships[m].user != user)
            && (access == Err(MfaRequired) <==> Decision(db, user, token, p, None) && RequiresMfa(p) && !hasTotp)
  {
    hide ContextHasPermission, RequiresMfa;
    if db.installation.Some? {
      if m :| && m in db.memberships && db.memberships[m].tenant == db.installation.value.tenant
              && db.memberships[m].user == user {
        MembershipOfIsTheOne(db, m);
      }
    }
  }

  /** What the query returns to a client: its own organization, if that is live and its role or an assignment covering
      the organization carries the permission. */
  lemma PortalQueryReturns(db: Db, m: MembershipId, p: Permission, o: OrgId)
    requires Linked(db) && OrdinaryMember(db, m) && ClientRole(db.memberships[m].role)
    ensures RequireInstallationMember(db, db.memberships[m].user, None).Ok?
    ensures o in AccessibleOrganizations(db, RequireInstallationMember(db, db.memberships[m].user, None).value, p)
       <==> && db.memberships[m].organization == Some(o)
            && o in db.organizations && db.organizations[o].tenant == db.memberships[m].tenant
            && !db.organizations[o].archived
            && (RoleGrants(db.memberships[m].role, p) || Assigned(db, m, p, Some(o)))
  {
    MembershipOfIsTheOne(db, m);
    var user := db.memberships[m].user;
    var ctx := RequireInstallationMember(db, user, None).value;
    QueryMatchesDecision(db, user, None, p, o);
    AssignedExactly(db, ctx, p, Some(o));
    hide AccessibleOrganizations, CustomPermissionExists, Assigned, Linked, MembershipOf;
  }

  // ---- What each operation demands, and the rows it leaves ----

  predicate Permitted(db: Db, actor: Actor, p: Permission) {
    Decision(db, actor.user, actor.token, p, None) && actor.hasTotp
  }

  lemma ActsWhenPermitted(db: Db, step: Step, p: Permission)
    requires Demands(step) == Some(p) && RequiresMfa(p)
    ensures Permitted(db, step.actor, p) ==>
              && db.installation.Some? && RequireInstallationMember(db, step.actor.user, step.actor.token).Ok?
              && Apply(db, step) == GuardedStep(db, RequireInstallationMember(db, step.actor.user, step.actor.token).value,
                                                db.installation.value, step)
    ensures !Permitted(db, step.actor, p) ==> Apply(db, step).db == db && Apply(db, step).outcome.Denied?
  {
    hide Demands, GuardedStep, ContextHasPermission, RequiresMfa, MembershipOf;
  }

  /** A role is created exactly for a permitted actor, with permissions a custom role may carry and a name of 1 to 80
      characters that no role of its scope has; it is then stored live, under the collapsed name. */
  lemma RoleCreatedExactly(
    db: Db, actor: Actor, r: RoleId, name: string, scope: RoleScope, permissions: set<Permission>)
    ensures var effect := Apply(db, CreateRole(actor, r, name, scope, permissions));
            && (effect.outcome.Done? <==>
                  && Permitted(db, actor, CUSTOM_ROLES_MANAGE)
                  && permissions != {} && (forall p | p in permissions :: CustomRoleAssignable(p))
                  && 1 <= |name| <= 80 && r !in db.roles
                  && forall k | k in db.roles && db.roles[k].tenant == db.installation.value.tenant
                                && db.roles[k].scope == scope :: db.roles[k].nameKey != Collapsed(name))
            && (effect.outcome.Done? ==>
                  effect.db == db.(roles := db.roles[r := CustomRole(db.installation.value.tenant, Collapsed(name), scope,
                                                                     false, permissions)]))
  {
    var step := CreateRole(actor, r, name, scope, permissions);
    ActsWhenPermitted(db, step, CUSTOM_ROLES_MANAGE);
    hide Apply, Decision, CustomRoleAssignable, Collapsed;
  }

  /** A live role is renamed and given other permissions under the same conditions; its scope stays. */
  lemma RoleUpdatedExactly(db: Db, actor: Actor, r: RoleId, name: string, permissions: set<Permission>)
    ensures var effect := Apply(db, UpdateRole(actor, r, name, permissions));
            && (effect.outcome.Done? <==>
                  && Permitted(db, actor, CUSTOM_ROLES_MANAGE)
                  && permissions != {} && (forall p | p in permissions :: CustomRoleAssignable(p))
                  && 1 <= |name| <= 80
                  && r in db.roles && db.roles[r].tenant == db.installation.value.tenant && !db.roles[r].archived
                  && forall k | k in db.roles && k != r && db.roles[k].tenant == db.installation.value.tenant
                                && db.roles[k].scope == db.roles[r].scope :: db.roles[k].nameKey != Collapsed(name))
            && (effect.outcome.Done? ==>
                  effect.db == db.(roles := db.roles[r := db.roles[r].(nameKey := Collapsed(name),
                                                                       permissions := permissions)]))
  {
    ActsWhenPermitted(db, UpdateRole(actor, r, name, permissions), CUSTOM_ROLES_MANAGE);
    hide Apply, Decision, CustomRoleAssignable, Collapsed;
  }

  /** Archiving a live role leaves it archived and everything else as it was. */
  lemma RoleArchivedExactly(db: Db, actor: Actor, r: RoleId)
    ensures var effect := Apply(db, ArchiveRole(actor, r));
            && (effect.outcome.Done? <==>
                  && Permitted(db, actor, CUSTOM_ROLES_MANAGE)
                  && r in db.roles && db.roles[r].tenant == db.installation.value.tenant && !db.roles[r].archived)
            && (effect.outcome.Done? ==> effect.db == db.(roles := db.roles[r := db.roles[r].(archived := true)]))
  {
    ActsWhenPermitted(db, ArchiveRole(actor, r), CUSTOM_ROLES_MANAGE);
    hide Apply, Decision;
  }

  // The membership row of a user in the installation's tenant.
  predicate RowOf(db: Db, member: UserId, m: MembershipId) {
    && db.installation.Some? && m in db.memberships
    && db.memberships[m].tenant == db.installation.value.tenant && db.memberships[m].user == member
  }

  lemma RowIsFound(db: Db, member: UserId, m: MembershipId)
    requires Linked(db) && RowOf(db, member, m)
    ensures MembershipOf(db, db.installation.value.tenant, member) == Some(m) && MembershipRowOk(db.memberships[m])
  {
    MembershipOfIsTheOne(db, m);
  }

  // The target is of the kind the role is for, and live.
  predicate TargetLive(db: Db, r: RoleId, organization: Option<OrgId>, collection: Option<CollectionId>)
    requires db.installation.Some? && r in db.roles
  {
    var tenant := db.installation.value.tenant;
    && (organization.Some? <==> db.roles[r].scope.OrganizationScope?)
    && (collection.Some? <==> db.roles[r].scope.CollectionScope?)
    && (organization.Some? ==>
          && organization.value in db.organizations && db.organizations[organization.value].tenant == tenant
          && !db.organizations[organization.value].archived)
    && (collection.Some? ==>
          && collection.value in db.collections && db.collections[collection.value].tenant == tenant
          && !db.collections[collection.value].archived)
  }

  /** A live role is assigned to a member other than the owner, on a live target of its kind, once. */
  lemma RoleAssignedExactly(
    db: Db, actor: Actor, a: AssignmentId, member: UserId, m: MembershipId, r: RoleId,
    organization: Option<OrgId>, collection: Option<CollectionId>)
    requires Linked(db) && RowOf(db, member, m)
    ensures var effect := Apply(db, AssignRole(actor, a, member, r, organization, collection));
            var row := ScopedAssignment(db.installation.value.tenant, m, r, organization, collection);
            && (effect.outcome.Done? <==>
                  && Permitted(db, actor, CUSTOM_ROLES_ASSIGN) && member != db.installation.value.owner
                  && r in db.roles && db.roles[r].tenant == db.installation.value.tenant && !db.roles[r].archived
                  && TargetLive(db, r, organization, collection)
                  && a !in db.assignments && forall k | k in db.assignments :: db.assignments[k] != row)
            && (effect.outcome.Done? ==> effect.db == db.(assignments := db.assignments[a := row]))
  {
    hide Apply, Decision, Linked, MembershipOf;
    RowIsFound(db, member, m);
    ActsWhenPermitted(db, AssignRole(actor, a, member, r, organization, collection), CUSTOM_ROLES_ASSIGN);
  }

  /** Removing an assignment of the tenant removes that one. */
  lemma AssignmentRemovedExactly(db: Db, actor: Actor, a: AssignmentId)
    ensures var effect := Apply(db, RemoveAssignment(actor, a));
            && (effect.outcome.Done? <==>
                  && Permitted(db, actor, CUSTOM_ROLES_ASSIGN)
                  && a in db.assignments && db.assignments[a].tenant == db.installation.value.tenant)
            && (effect.outcome.Done? ==> effect.db == db.(assignments := db.assignments - {a}))
  {
    ActsWhenPermitted(db, RemoveAssignment(actor, a), CUSTOM_ROLES_ASSIGN);
    hide Apply, Decision;
  }

  // A person's row in the tenant that belongs to no organization, changed by somebody else.
  predicate StaffOtherThan(db: Db, actor: Actor, member: UserId, m: MembershipId)
    requires m in db.memberships
  {
    && member != actor.user && db.memberships[m].organization.None?
    && !(member in db.users && db.users[member].serviceAccount)
  }

  /** A staff member's built-in role becomes another tenant role, never the owner's nor a client's, and never one's own. */
  lemma BuiltInRoleAssignedExactly(db: Db, actor: Actor, member: UserId, m: MembershipId, role: BuiltInRole)
    requires Linked(db) && RowOf(db, member, m)
    ensures var effect := Apply(db, AssignMembershipRole(actor, member, role));
            && (effect.outcome.Done? <==>
                  && Permitted(db, actor, MEMBERSHIPS_ASSIGN_ROLE) && StaffOtherThan(db, actor, member, m)
                  && role in {Administrator, Technician, Contributor, ReadOnly} && db.memberships[m].role != role)
            && (effect.outcome.Done? ==>
                  effect.db == db.(memberships := db.memberships[m := db.memberships[m].(role := role)]))
  {
    hide Apply, Decision, Linked, MembershipOf;
    RowIsFound(db, member, m);
    ActsWhenPermitted(db, AssignMembershipRole(actor, member, role), MEMBERSHIPS_ASSIGN_ROLE);
  }

  /** A staff member's workspace scope becomes the requested one. */
  lemma ScopeAssignedExactly(db: Db, actor: Actor, member: UserId, m: MembershipId, scope: WorkspaceScope)
    requires Linked(db) && RowOf(db, member, m)
    ensures var effect := Apply(db, AssignWorkspaceScope(actor, member, scope));
            && (effect.outcome.Done? <==>
                  && Permitted(db, actor, MEMBERSHIPS_ASSIGN_ROLE) && StaffOtherThan(db, actor, member, m)
                  && db.memberships[m].scope != scope)
            && (Permitted(db, actor, MEMBERSHIPS_ASSIGN_ROLE) && member != actor.user ==>
                  (effect.outcome == NotFound <==> !StaffOtherThan(db, actor, member, m)))
            && (effect.outcome.Done? ==>
                  effect.db == db.(memberships := db.memberships[m := db.memberships[m].(scope := scope)]))
  {
    hide Apply, Decision, Linked, MembershipOf;
    RowIsFound(db, member, m);
    ActsWhenPermitted(db, AssignWorkspaceScope(actor, member, scope), MEMBERSHIPS_ASSIGN_ROLE);
  }

  /** A live organization's access mode becomes the requested one. */
  lemma AccessModeChangedExactly(db: Db, actor: Actor, o: OrgId, mode: AccessMode)
    ensures var effect := Apply(db, ChangeAccessMode(actor, o, mode));
            && (effect.outcome.Done? <==>
                  && Permitted(db, actor, ORGANIZATIONS_MANAGE_ACCESS)
                  && o in db.organizations && db.organizations[o].tenant == db.installation.value.tenant
                  && !db.organizations[o].archived && db.organizations[o].accessMode != mode)
            && (effect.outcome.Done? ==>
                  effect.db == db.(organizations := db.organizations[o := db.organizations[o].(accessMode := mode)]))
  {
    ActsWhenPermitted(db, ChangeAccessMode(actor, o, mode), ORGANIZATIONS_MANAGE_ACCESS);
    hide Apply, Decision;
  }

  /** A member is staffed on a live organization by one new row, and taken off it by removing that row. */
  lemma StaffedExactlyOnce(db: Db, actor: Actor, o: OrgId, member: UserId, m: MembershipId)
    requires Linked(db) && RowOf(db, member, m)
    ensures var row := StaffAssignment(db.installation.value.tenant, o, m);
            var live := o in db.organizations && db.organizations[o].tenant == db.installation.value.tenant
                        && !db.organizations[o].archived;
            var added, removed := Apply(db, AssignStaff(actor, o, member)), Apply(db, RemoveStaff(actor, o, member));
            && (added.outcome.Done? <==>
                  && Permitted(db, actor, ORGANIZATIONS_ASSIGN_STAFF) && live && member != db.installation.value.owner
                  && !(member in db.users && db.users[member].serviceAccount) && row !in db.staff)
            && (added.outcome.Done? ==> added.db == db.(staff := db.staff + {row}))
            && (removed.outcome.Done? <==>
                  Permitted(db, actor, ORGANIZATIONS_ASSIGN_STAFF) && live && row in db.staff)
            && (removed.outcome.Done? ==> removed.db == db.(staff := db.staff - {row}))
  {
    hide Apply, Decision, Linked, MembershipOf;
    RowIsFound(db, member, m);
    ActsWhenPermitted(db, AssignStaff(actor, o, member), ORGANIZATIONS_ASSIGN_STAFF);
    ActsWhenPermitted(db, RemoveStaff(actor, o, member), ORGANIZATIONS_ASSIGN_STAFF);
  }

  // What a collection is created or updated with: a name that stays non-empty, and distinct live organizations.
  predicate CollectionRequestOk(db: Db, c: CollectionId, name: string, organizations: seq<OrgId>)
    requires db.installation.Some?
  {
    var tenant := db.installation.value.tenant;
    && !AllBlank(name) && |Collapsed(name)| <= 80
    && (forall i, j | 0 <= i < j < |organizations| :: organizations[i] != organizations[j])
    && (forall o | o in organizations ::
          o in db.organizations && db.organizations[o].tenant == tenant && !db.organizations[o].archived)
    && (forall k | k in db.collections && k != c && db.collections[k].tenant == tenant ::
          db.collections[k].nameKey != Collapsed(name))
  }

  // The collection lists exactly these organizations, and every other edge is as it was.
  ghost predicate ListsExactly(db: Db, after: Db, c: CollectionId, organizations: seq<OrgId>)
    requires db.installation.Some?
  {
    var tenant := db.installation.value.tenant;
    forall e :: e in after.edges <==>
      if e.tenant == tenant && e.collection == c then e.organization in organizations else e in db.edges
  }

  lemma EdgesReplaced(db: Db, next: Db, c: CollectionId, organizations: seq<OrgId>)
    requires db.installation.Some?
    requires next.edges == ReplacedEdges(db.edges, db.installation.value.tenant, c, organizations)
    ensures ListsExactly(db, next, c, organizations)
  {
  }

  /** A new collection is stored live under the collapsed name, with exactly the organizations asked for. */
  lemma CollectionCreatedExactly(db: Db, actor: Actor, c: CollectionId, name: string, organizations: seq<OrgId>)
    ensures var effect := Apply(db, CreateCollection(actor, c, name, organizations));
            && (effect.outcome.Done? <==>
                  && Permitted(db, actor, ACCESS_COLLECTIONS_MANAGE)
                  && c !in db.collections && CollectionRequestOk(db, c, name, organizations))
            && (effect.outcome.Done? ==>
                  && effect.db == db.(
                       collections := db.collections[c := Collection(db.installation.value.tenant, Collapsed(name), false)],
                       edges := effect.db.edges)
                  && ListsExactly(db, effect.db, c, organizations))
  {
    ActsWhenPermitted(db, CreateCollection(actor, c, name, organizations), ACCESS_COLLECTIONS_MANAGE);
    hide Apply, Decision, Collapsed, ListsExactly, ReplacedEdges, AllBlank;
    CollapsesToNothing(name);
    if Permitted(db, actor, ACCESS_COLLECTIONS_MANAGE)
       && Apply(db, CreateCollection(actor, c, name, organizations)).outcome.Done? {
      EdgesReplaced(db, Apply(db, CreateCollection(actor, c, name, organizations)).db, c, organizations);
    }
  }

  /** A live collection gets the collapsed name and exactly the organizations asked for. */
  lemma CollectionUpdatedExactly(db: Db, actor: Actor, c: CollectionId, name: string, organizations: seq<OrgId>)
    ensures var effect := Apply(db, UpdateCollection(actor, c, name, organizations));
            && (effect.outcome.Done? <==>
                  && Permitted(db, actor, ACCESS_COLLECTIONS_MANAGE)
                  && c in db.collections && db.collections[c].tenant == db.installation.value.tenant
                  && !db.collections[c].archived && CollectionRequestOk(db, c, name, organizations))
            && (effect.outcome.Done? ==>
                  && effect.db == db.(
                       collections := db.collections[c := db.collections[c].(nameKey := Collapsed(name))],
                       edges := effect.db.edges)
                  && ListsExactly(db, effect.db, c, organizations))
  {
    ActsWhenPermitted(db, UpdateCollection(actor, c, name, organizations), ACCESS_COLLECTIONS_MANAGE);
    hide Apply, Decision, Collapsed, ListsExactly, ReplacedEdges, AllBlank;
    CollapsesToNothing(name);
    if Permitted(db, actor, ACCESS_COLLECTIONS_MANAGE)
       && Apply(db, UpdateCollection(actor, c, name, organizations)).outcome.Done? {
      EdgesReplaced(db, Apply(db, UpdateCollection(actor, c, name, organizations)).db, c, organizations);
    }
  }

  /** Archiving a live collection leaves it archived; it keeps its edges, which grant nothing from then on. */
  lemma CollectionArchivedExactly(db: Db, actor: Actor, c: CollectionId)
    ensures var effect := Apply(db, ArchiveCollection(actor, c));
            && (effect.outcome.Done? <==>
                  && Permitted(db, actor, ACCESS_COLLECTIONS_MANAGE)
                  && c in db.collections && db.collections[c].tenant == db.installation.value.tenant
                  && !db.collections[c].archived)
            && (effect.outcome.Done? ==>
                  effect.db == db.(collections := db.collections[c := db.collections[c].(archived := true)]))
  {
    ActsWhenPermitted(db, ArchiveCollection(actor, c), ACCESS_COLLECTIONS_MANAGE);
    hide Apply, Decision;
  }

  /** The principal of a service token joins as an active, read-only, tenant-wide service account, staffed on the token's
      organization if it has one. Only a tenant-wide MSP session with the integration permission adds one. */
  lemma ServiceSubjectAddedExactly(
    db: Db, actor: Actor, joining: UserId, m: MembershipId, organization: Option<OrgId>)
    ensures var effect := Apply(db, AddServiceSubject(actor, joining, m, organization));
            && (effect.outcome.Done? <==>
                  && Permitted(db, actor, INTEGRATIONS_MANAGE) && actor.token.None?
                  && joining !in db.users && m !in db.memberships
                  && (organization.Some? ==>
                        && organization.value in db.organizations && !db.organizations[organization.value].archived
                        && db.organizations[organization.value].tenant == db.installation.value.tenant))
            && (effect.outcome.Done? ==>
                  effect.db == db.(
                    users := db.users[joining := User(true, true)],
                    memberships := db.memberships[m := Membership(db.installation.value.tenant, joining, ReadOnly,
                                                                  TenantWide, None)],
                    staff := db.staff + if organization.None? then {}
                                        else {StaffAssignment(db.installation.value.tenant, organization.value, m)}))
  {
    var step := AddServiceSubject(actor, joining, m, organization);
    ActsWhenPermitted(db, step, INTEGRATIONS_MANAGE);
    if Permitted(db, actor, INTEGRATIONS_MANAGE) {
      var ctx := RequireInstallationMember(db, actor.user, actor.token).value;
      assert !ClientPortal(ctx) && ctx.scope.TenantWide? && ctx.tenant == db.installation.value.tenant;
    }
    hide Apply, Decision, RequireInstallationMember, ClientPortal;
  }

  /** The first installation is claimed by an active owner account with a read-only, tenant-wide membership beside it. */
  lemma BootstrappedExactly(db: Db, tenant: TenantId, owner: UserId, m: MembershipId)
    ensures var effect := Apply(db, Bootstrap(tenant, owner, m));
            && (effect.outcome.Done? <==> db.installation.None? && db.users == map[] && m !in db.memberships)
            && (effect.outcome.Done? ==>
                  effect.db == db.(
                    installation := Some(Installation(tenant, owner)),
                    users := map[owner := User(false, true)],
                    memberships := db.memberships[m := Membership(tenant, owner, ReadOnly, TenantWide, None)]))
  {
  }

  /** Whoever accepts an invitation joins with the invited row: never the owner's role, and an organization and a
      tenant-wide scope for a client. */
  lemma JoinedExactly(db: Db, joining: UserId, m: MembershipId, row: Membership)
    ensures var effect := Apply(db, AcceptInvitation(joining, m, row));
            && (effect.outcome.Done? <==>
                  && joining !in db.users && m !in db.memberships && row.user == joining && row.role != Owner
                  && if row.role in {ClientAdministrator, ClientUser} then row.organization.Some? && row.scope == TenantWide
                     else row.organization.None?)
            && (effect.outcome.Done? ==>
                  effect.db == db.(users := db.users[joining := User(false, true)], memberships := db.memberships[m := row]))
  {
    hide RequirePermission, GuardedStep;
  }

  /** What the rest of the program does to these tables: a new organization, one archived or restored, an account switched
      on or off. */
  lemma RecordsSavedExactly(db: Db, o: OrgId, record: Organization, archived: bool, u: UserId, active: bool)
    ensures var created := Apply(db, CreateOrganization(o, record));
            && (created.outcome.Done? <==> o !in db.organizations)
            && (created.outcome.Done? ==> created.db == db.(organizations := db.organizations[o := record]))
    ensures var saved := Apply(db, SetOrganizationArchived(o, archived));
            && (saved.outcome.Done? <==> o in db.organizations)
            && (saved.outcome.Done? ==>
                  saved.db == db.(organizations := db.organizations[o := db.organizations[o].(archived := archived)]))
    ensures var switched := Apply(db, SetUserActive(u, active));
            && (switched.outcome.Done? <==> u in db.users)
            && (switched.outcome.Done? ==> switched.db == db.(users := db.users[u := db.users[u].(active := active)]))
  {
    hide RequirePermission, GuardedStep;
  }

  /** Whatever an operation answers but success, it has changed nothing. */
  lemma OnlySuccessChanges(db: Db, step: Step)
    requires !Apply(db, step).outcome.Done?
    ensures Apply(db, step).db == db
  {
    hide ContextHasPermission, MembershipOf, RequiresMfa, Collapsed, MembershipRowOk, RoleNameTaken, CollectionNameTaken,
         TargetFits, OrganizationsUsable, NoDuplicates, Delegable, RoleNameAccepted, TenantAssignable;
  }
}
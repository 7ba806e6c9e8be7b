/** What every run of the access operations keeps. */
module AccessProofs {
  import opened Wrappers
  import opened Permissions
  import opened AccessTables
  import opened Policy
  import opened AccessSteps
  import opened Text

  // ---- Every step keeps the tables consistent ----

  // Rows are only added, and what links refer to is never rewritten.
  ghost predicate Extends(db: Db, next: Db) {
    && (forall m | m in db.memberships :: m in next.memberships
          && next.memberships[m].tenant == db.memberships[m].tenant
          && next.memberships[m].user == db.memberships[m].user)
    && (forall o | o in db.organizations :: o in next.organizations
          && next.organizations[o].tenant == db.organizations[o].tenant)
    && (forall r | r in db.roles :: r in next.roles
          && next.roles[r].tenant == db.roles[r].tenant && next.roles[r].scope == db.roles[r].scope)
    && (forall c | c in db.collections :: c in next.collections
          && next.collections[c].tenant == db.collections[c].tenant)
  }

  lemma LinksSurvive(db: Db, next: Db)
    requires Linked(db) && Extends(db, next)
    ensures forall s | s in db.staff :: StaffRowOk(next, s)
    ensures forall e | e in db.edges :: EdgeOk(next, e)
    ensures forall a | a in db.assignments :: AssignmentOk(next, db.assignments[a])
  {
  }

  // What two databases must share for the membership table of the second to be as sound as the first's.
  lemma MembershipsSurvive(db: Db, next: Db)
    requires MembershipsOk(db) && next.memberships == db.memberships && db.users.Keys <= next.users.Keys
    ensures MembershipsOk(next)
  {
  }

  lemma JoinKeepsLinked(db: Db, joining: UserId, account: User, m: MembershipId, row: Membership)
    requires Linked(db)
    ensures Linked(JoinStep(db, joining, account, m, row).db)
  {
    var next := JoinStep(db, joining, account, m, row).db;
    if next != db {
      LinksSurvive(db, next);
      NewMembershipIsOk(db, next, m, row);
    }
    hide StaffRowOk, EdgeOk, AssignmentOk, MembershipsOk;
  }

  lemma NewMembershipIsOk(db: Db, next: Db, m: MembershipId, row: Membership)
    requires MembershipsOk(db) && m !in db.memberships && row.user !in db.users && MembershipRowOk(row)
    requires next.memberships == db.memberships[m := row] && next.users.Keys == db.users.Keys + {row.user}
    ensures MembershipsOk(next)
  {
  }

  // Saving records keeps every link, as does removing links.
  lemma RecordsKeepLinked(db: Db, next: Db)
    requires Linked(db) && Extends(db, next)
    requires next.memberships == db.memberships && db.users.Keys <= next.users.Keys
    requires next.installation == db.installation
             || (next.installation.Some? && next.installation.value.owner in next.users)
    requires next.staff <= db.staff && next.edges <= db.edges
    requires forall a | a in next.assignments :: a in db.assignments && next.assignments[a] == db.assignments[a]
    ensures Linked(next)
  {
    LinksSurvive(db, next);
    MembershipsSurvive(db, next);
  }

  lemma SaveMembershipKeepsLinked(db: Db, m: MembershipId, row: Membership)
    requires Linked(db) && m in db.memberships
    requires row.tenant == db.memberships[m].tenant && row.user == db.memberships[m].user
    ensures Linked(SaveMembership(db, m, row).db)
  {
    var next := SaveMembership(db, m, row).db;
    LinksSurvive(db, next);
    SavedMembershipIsOk(db, m, row);
    hide StaffRowOk, EdgeOk, AssignmentOk, MembershipsOk;
  }

  lemma SavedMembershipIsOk(db: Db, m: MembershipId, row: Membership)
    requires MembershipsOk(db) && m in db.memberships
    requires row.tenant == db.memberships[m].tenant && row.user == db.memberships[m].user
    ensures MembershipsOk(SaveMembership(db, m, row).db)
  {
  }

  lemma AssignStaffKeepsLinked(db: Db, installation: Installation, o: OrgId, member: UserId)
    requires Linked(db)
    ensures Linked(AssignStaffStep(db, installation, o, member).db)
  {
  }

  lemma AssignRoleKeepsLinked(
    db: Db, installation: Installation, a: AssignmentId, member: UserId, r: RoleId,
    organization: Option<OrgId>, collection: Option<CollectionId>)
    requires Linked(db)
    ensures Linked(AssignRoleStep(db, installation, a, member, r, organization, collection).db)
  {
  }

  lemma SaveRoleKeepsLinked(db: Db, r: RoleId, row: CustomRole)
    requires Linked(db)
    requires r in db.roles ==> db.roles[r].tenant == row.tenant && db.roles[r].scope == row.scope
    ensures Linked(db.(roles := db.roles[r := row]))
  {
  }

  lemma SaveOrganizationKeepsLinked(db: Db, o: OrgId, row: Organization)
    requires Linked(db)
    requires o in db.organizations ==> db.organizations[o].tenant == row.tenant
    ensures Linked(db.(organizations := db.organizations[o := row]))
  {
  }

  lemma RoleStepsKeepLinked(
    db: Db, tenant: TenantId, r: RoleId, name: string, scope: RoleScope, permissions: set<Permission>)
    requires Linked(db)
    ensures Linked(CreateRoleStep(db, tenant, r, name, scope, permissions).db)
    ensures Linked(UpdateRoleStep(db, tenant, r, name, permissions).db)
    ensures Linked(ArchiveRoleStep(db, tenant, r).db)
  {
    hide Linked;
    if r in db.roles {
      SaveRoleKeepsLinked(db, r, db.roles[r].(nameKey := Collapsed(name), permissions := permissions));
      SaveRoleKeepsLinked(db, r, db.roles[r].(archived := true));
    } else {
      SaveRoleKeepsLinked(db, r, CustomRole(tenant, Collapsed(name), scope, false, permissions));
    }
  }

  lemma RemoveAssignmentKeepsLinked(db: Db, a: AssignmentId)
    requires Linked(db)
    ensures Linked(db.(assignments := db.assignments - {a}))
  {
  }

  lemma RemoveStaffKeepsLinked(db: Db, row: StaffAssignment)
    requires Linked(db)
    ensures Linked(db.(staff := db.staff - {row}))
  {
  }

  lemma RemovalsKeepLinked(db: Db, tenant: TenantId, a: AssignmentId, o: OrgId, member: UserId)
    requires Linked(db)
    ensures Linked(RemoveAssignmentStep(db, tenant, a).db)
    ensures Linked(RemoveStaffStep(db, tenant, o, member).db)
  {
    hide Linked, MembershipOf;
    RemoveAssignmentKeepsLinked(db, a);
    if MembershipOf(db, tenant, member).Some? {
      RemoveStaffKeepsLinked(db, StaffAssignment(tenant, o, MembershipOf(db, tenant, member).value));
    }
  }

  lemma MembershipStepsKeepLinked(
    db: Db, tenant: TenantId, actor: UserId, member: UserId, role: BuiltInRole, scope: WorkspaceScope)
    requires Linked(db)
    ensures Linked(AssignMembershipRoleStep(db, tenant, actor, member, role).db)
    ensures Linked(AssignWorkspaceScopeStep(db, tenant, actor, member, scope).db)
  {
    if MembershipOf(db, tenant, member).Some? {
      var m := MembershipOf(db, tenant, member).value;
      SaveMembershipKeepsLinked(db, m, db.memberships[m].(role := role));
      SaveMembershipKeepsLinked(db, m, db.memberships[m].(scope := scope));
    }
  }

  lemma OrganizationStepsKeepLinked(
    db: Db, tenant: TenantId, o: OrgId, mode: AccessMode, record: Organization, archived: bool)
    requires Linked(db)
    ensures Linked(ChangeAccessModeStep(db, tenant, o, mode).db)
    ensures Linked(CreateOrganizationStep(db, o, record).db)
    ensures Linked(SetArchivedStep(db, o, archived).db)
  {
    hide Linked;
    if o in db.organizations {
      SaveOrganizationKeepsLinked(db, o, db.organizations[o].(accessMode := mode));
      SaveOrganizationKeepsLinked(db, o, db.organizations[o].(archived := archived));
    } else {
      SaveOrganizationKeepsLinked(db, o, record);
    }
  }

  lemma ReplacedEdgesKeepLinked(db: Db, next: Db, tenant: TenantId, c: CollectionId, organizations: seq<OrgId>)
    requires Linked(db) && OrganizationsUsable(db, tenant, organizations)
    requires c in next.collections && next.collections[c].tenant == tenant
    requires c in db.collections ==> db.collections[c].tenant == tenant
    requires next == db.(collections := db.collections[c := next.collections[c]],
                         edges := ReplacedEdges(db.edges, tenant, c, organizations))
    ensures Linked(next)
  {
  }

  lemma CreateCollectionKeepsLinked(
    db: Db, tenant: TenantId, c: CollectionId, name: string, organizations: seq<OrgId>)
    requires Linked(db)
    ensures Linked(CreateCollectionStep(db, tenant, c, name, organizations).db)
  {
    hide Linked, Collapsed, NoDuplicates, OrganizationsUsable, CollectionNameTaken, ReplacedEdges;
    var created := CreateCollectionStep(db, tenant, c, name, organizations);
    if created.outcome.Done? {
      ReplacedEdgesKeepLinked(db, created.db, tenant, c, organizations);
    }
  }

  lemma UpdateCollectionKeepsLinked(
    db: Db, tenant: TenantId, c: CollectionId, name: string, organizations: seq<OrgId>)
    requires Linked(db)
    ensures Linked(UpdateCollectionStep(db, tenant, c, name, organizations).db)
  {
    hide Linked, Collapsed, NoDuplicates, OrganizationsUsable, CollectionNameTaken, ReplacedEdges;
    var updated := UpdateCollectionStep(db, tenant, c, name, organizations);
    if updated.outcome.Done? {
      ReplacedEdgesKeepLinked(db, updated.db, tenant, c, organizations);
    }
  }

  lemma ArchiveCollectionKeepsLinked(db: Db, tenant: TenantId, c: CollectionId)
    requires Linked(db)
    ensures Linked(ArchiveCollectionStep(db, tenant, c).db)
  {
    hide Linked;
    RecordsKeepLinked(db, ArchiveCollectionStep(db, tenant, c).db);
  }

  lemma ServiceSubjectKeepsLinked(db: Db, ctx: Context, joining: UserId, m: MembershipId, organization: Option<OrgId>)
    requires Linked(db)
    ensures Linked(ServiceSubjectStep(db, ctx, joining, m, organization).db)
  {
    var next := ServiceSubjectStep(db, ctx, joining, m, organization).db;
    var joined := JoinStep(db, joining, User(true, true), m, Membership(ctx.tenant, joining, ReadOnly, TenantWide, None));
    JoinKeepsLinked(db, joining, User(true, true), m, Membership(ctx.tenant, joining, ReadOnly, TenantWide, None));
    if next != db && next != joined.db {
      LinksSurvive(joined.db, next);
      MembershipsSurvive(joined.db, next);
      assert StaffRowOk(next, StaffAssignment(ctx.tenant, organization.value, m));
    }
  }

  lemma BootstrapKeepsLinked(db: Db, tenant: TenantId, owner: UserId, m: MembershipId)
    requires Linked(db)
    ensures Linked(BootstrapStep(db, tenant, owner, m).db)
  {
  }

  lemma GuardedStepKeepsLinked(db: Db, ctx: Context, installation: Installation, step: Step)
    requires Linked(db) && Demands(step).Some?
    ensures Linked(GuardedStep(db, ctx, installation, step).db)
  {
    hide Linked;
    var tenant := installation.tenant;
    match step
    case CreateRole(_, r, name, scope, permissions) =>
      RoleStepsKeepLinked(db, tenant, r, name, scope, permissions);
    case UpdateRole(_, r, name, permissions) =>
      RoleStepsKeepLinked(db, tenant, r, name, TenantScope, permissions);
    case ArchiveRole(_, r) => RoleStepsKeepLinked(db, tenant, r, "", TenantScope, {});
    case AssignRole(_, a, member, r, organization, collection) =>
      AssignRoleKeepsLinked(db, installation, a, member, r, organization, collection);
    case RemoveAssignment(_, a) => RemovalsKeepLinked(db, tenant, a, 0, 0);
    case AssignMembershipRole(actor, member, role) =>
      MembershipStepsKeepLinked(db, tenant, actor.user, member, role, TenantWide);
    case AssignWorkspaceScope(actor, member, scope) =>
      MembershipStepsKeepLinked(db, tenant, actor.user, member, ReadOnly, scope);
    case ChangeAccessMode(_, o, mode) =>
      OrganizationStepsKeepLinked(db, tenant, o, mode, Organization(tenant, false, mode), false);
    case AssignStaff(_, o, member) => AssignStaffKeepsLinked(db, installation, o, member);
    case RemoveStaff(_, o, member) => RemovalsKeepLinked(db, tenant, 0, o, member);
    case CreateCollection(_, c, name, organizations) =>
      CreateCollectionKeepsLinked(db, tenant, c, name, organizations);
    case UpdateCollection(_, c, name, organizations) =>
      UpdateCollectionKeepsLinked(db, tenant, c, name, organizations);
    case ArchiveCollection(_, c) => ArchiveCollectionKeepsLinked(db, tenant, c);
    case AddServiceSubject(_, joining, m, organization) => ServiceSubjectKeepsLinked(db, ctx, joining, m, organization);
  }

  lemma OpenStepKeepsLinked(db: Db, step: Step)
    requires Linked(db) && Demands(step).None?
    ensures Linked(OpenStep(db, step).db)
  {
    hide Linked;
    match step
    case Bootstrap(tenant, owner, m) => BootstrapKeepsLinked(db, tenant, owner, m);
    case AcceptInvitation(joining, m, row) => JoinKeepsLinked(db, joining, User(false, true), m, row);
    case CreateOrganization(o, record) => OrganizationStepsKeepLinked(db, 0, o, AllAuthorized, record, false);
    case SetOrganizationArchived(o, archived) =>
      OrganizationStepsKeepLinked(db, 0, o, AllAuthorized, Organization(0, false, AllAuthorized), archived);
    case SetUserActive(u, active) => RecordsKeepLinked(db, SetUserActiveStep(db, u, active).db);
  }

  lemma ApplyKeepsLinked(db: Db, step: Step)
    requires Linked(db)
    ensures Linked(Apply(db, step).db)
  {
    hide Linked, GuardedStep, OpenStep, Decision;
    if Demands(step).None? {
      OpenStepKeepsLinked(db, step);
    } else {
      var access := RequirePermission(db, step.actor.user, step.actor.token, step.actor.hasTotp, Demands(step).value);
      if access.Ok? {
        GuardedStepKeepsLinked(db, access.value, db.installation.value, step);
      }
    }
  }

  // The only rows a step writes permissions into are validated first.
  lemma GuardedStepKeepsCeiling(db: Db, ctx: Context, installation: Installation, step: Step)
    requires WithinCeiling(db) && Demands(step).Some?
    ensures WithinCeiling(GuardedStep(db, ctx, installation, step).db)
  {
    hide CustomRoleAssignable, Collapsed, RoleNameTaken, RoleNameAccepted;
    if step.CreateRole? || step.UpdateRole? || step.ArchiveRole? {
      hide ServiceSubjectStep, AssignRoleStep, CreateCollectionStep, UpdateCollectionStep;
    } else {
      OthersKeepRoles(db, ctx, installation, step);
      hide GuardedStep;
    }
  }

  lemma OthersKeepRoles(db: Db, ctx: Context, installation: Installation, step: Step)
    requires Demands(step).Some? && !step.CreateRole? && !step.UpdateRole? && !step.ArchiveRole?
    ensures GuardedStep(db, ctx, installation, step).db.roles == db.roles
  {
  }

  lemma ApplyKeepsCeiling(db: Db, step: Step)
    requires WithinCeiling(db)
    ensures WithinCeiling(Apply(db, step).db)
  {
    hide CustomRoleAssignable, GuardedStep, Decision;
    if Demands(step).None? {
      assert OpenStep(db, step).db.roles == db.roles;
    } else {
      var access := RequirePermission(db, step.actor.user, step.actor.token, step.actor.hasTotp, Demands(step).value);
      if access.Ok? {
        GuardedStepKeepsCeiling(db, access.value, db.installation.value, step);
      }
    }
  }

  lemma ApplyKeepsConsistent(db: Db, step: Step)
    ensures Consistent(db) ==> Consistent(Apply(db, step).db)
  {
    hide Linked, WithinCeiling, Apply;
    if Consistent(db) {
      ApplyKeepsLinked(db, step);
      ApplyKeepsCeiling(db, step);
    }
  }

  /** Every run from the empty database keeps the tables consistent. */
  lemma {:induction false} RunKeepsConsistent(db: Db, steps: seq<Step>)
    requires Consistent(db)
    ensures Consistent(Run(db, steps))
    decreases |steps|
  {
    if steps != [] {
      ApplyKeepsConsistent(db, steps[0]);
      RunKeepsConsistent(Apply(db, steps[0]).db, steps[1..]);
    }
  }

  /** In every reachable state the query and the decision admit the same organizations to MSP-surface principals. */
  lemma ReachableReadersAgree(steps: seq<Step>, user: UserId, token: Option<BearerToken>, p: Permission, o: OrgId)
    requires RequireInstallationMember(Run(EMPTY_DB, steps), user, token).Ok?
    requires !ClientPortal(RequireInstallationMember(Run(EMPTY_DB, steps), user, token).value)
    ensures var db := Run(EMPTY_DB, steps);
            var ctx := RequireInstallationMember(db, user, token).value;
            o in AccessibleOrganizations(db, ctx, p) <==> ContextHasPermission(db, ctx, p, Some(o))
  {
    RunKeepsConsistent(EMPTY_DB, steps);
    QueryMatchesDecision(Run(EMPTY_DB, steps), user, token, p, o);
  }

  const CLIENT_ADMINISTRATOR := Membership(0, 2, ClientAdministrator, TenantWide, Some(5))

  // An owner, an organization, and a client administrator who joins it.
  const PORTAL_STEPS: seq<Step> :=
    [Bootstrap(0, 1, 6), CreateOrganization(5, Organization(0, false, AssignedOnly)),
     AcceptInvitation(2, 7, CLIENT_ADMINISTRATOR)]

  lemma PortalRun()
    ensures var db := Run(EMPTY_DB, PORTAL_STEPS);
            && db.installation == Some(Installation(0, 1)) && 7 in db.memberships && 5 in db.organizations
            && db.memberships[7] == CLIENT_ADMINISTRATOR
            && db.organizations[5] == Organization(0, false, AssignedOnly)
  {
    hide Demands;
    var bootstrap, create, join := PORTAL_STEPS[0], PORTAL_STEPS[1], PORTAL_STEPS[2];
    assert Demands(bootstrap).None? && Demands(create).None? && Demands(join).None? by {
      OpenPortalSteps();
    }
    assert PORTAL_STEPS[1..] == [create, join] && [create, join][1..] == [join] && [join][1..] == [];
    var first := BootstrapStep(EMPTY_DB, 0, 1, 6).db;
    var second := CreateOrganizationStep(first, 5, Organization(0, false, AssignedOnly)).db;
    var db := JoinStep(second, 2, User(false, true), 7, CLIENT_ADMINISTRATOR).db;
    assert Run(db, []) == db && Run(second, [join]) == Run(db, []);
    assert Run(first, [create, join]) == Run(second, [join]);
  }

  lemma OpenPortalSteps()
    ensures forall step | step in PORTAL_STEPS :: Demands(step).None?
  {
  }

  /** A reachable state in which they disagree. */
  lemma ReachablePortalReadersDisagree()
    ensures var db := Run(EMPTY_DB, PORTAL_STEPS);
            var ctx := Context(0, 2, ClientAdministrator, false, Some(7), Some(5), TenantWide, None);
            && RequireInstallationMember(db, 2, None) == Ok(ctx)
            && 5 in AccessibleOrganizations(db, ctx, DOCUMENTS_VIEW)
            && !ContextHasPermission(db, ctx, DOCUMENTS_VIEW, Some(5))
  {
    hide Run;
    PortalRun();
    RunKeepsConsistent(EMPTY_DB, PORTAL_STEPS);
    var db := Run(EMPTY_DB, PORTAL_STEPS);
    MembershipOfIsTheOne(db, 7);
    hide AccessibleOrganizations, Linked;
    QueryMatchesDecision(db, 2, None, DOCUMENTS_VIEW, 5);
  }

  // ---- Names ----

  /** A role operation that succeeds stores the empty name exactly when the name it was given is nothing but blanks; a
      collection operation that succeeds never stores it. */
  lemma EmptyNameExactlyWhenBlank(db: Db, tenant: TenantId, r: RoleId, c: CollectionId, name: string, scope: RoleScope,
                                  permissions: set<Permission>, organizations: seq<OrgId>)
    ensures var created := CreateRoleStep(db, tenant, r, name, scope, permissions);
            created.outcome.Done? ==> r in created.db.roles && (created.db.roles[r].nameKey == "" <==> AllBlank(name))
    ensures var updated := UpdateRoleStep(db, tenant, r, name, permissions);
            updated.outcome.Done? ==> r in updated.db.roles && (updated.db.roles[r].nameKey == "" <==> AllBlank(name))
    ensures var created := CreateCollectionStep(db, tenant, c, name, organizations);
            created.outcome.Done? ==>
              c in created.db.collections && created.db.collections[c].nameKey != "" && !AllBlank(name)
    ensures var updated := UpdateCollectionStep(db, tenant, c, name, organizations);
            updated.outcome.Done? ==>
              c in updated.db.collections && updated.db.collections[c].nameKey != "" && !AllBlank(name)
  {
    CollapsesToNothing(name);
  }

  /** A name of nothing but blanks passes a role's checks and is stored as the empty name; a collection refuses it. */
  lemma BlankRoleNameIsStored(db: Db, tenant: TenantId, r: RoleId, c: CollectionId, name: string, scope: RoleScope,
                              permissions: set<Permission>, organizations: seq<OrgId>)
    requires name != "" && AllBlank(name) && |name| <= MAX_NAME
    requires Delegable(permissions) && r !in db.roles && !RoleNameTaken(db, tenant, scope, "", r)
    ensures CreateRoleStep(db, tenant, r, name, scope, permissions)
         == Effect(db.(roles := db.roles[r := CustomRole(tenant, "", scope, false, permissions)]), Done)
    ensures CreateCollectionStep(db, tenant, c, name, organizations) == Effect(db, Invalid)
  {
    CollapsesToNothing(name);
  }

  // ---- Reserved permissions never leave the owner ----

  lemma ReservedNeedsOwner(db: Db, user: UserId, token: Option<BearerToken>, p: Permission, organization: Option<OrgId>)
    requires Consistent(db) && ReservedFromAdministrators(p) && Decision(db, user, token, p, organization)
    ensures db.installation.Some? && db.installation.value.owner == user
  {
    CeilingsExcludeReserved(p);
    var ctx := RequireInstallationMember(db, user, token).value;
    if !ctx.isOwner && ctx.membership.Some? && CustomPermissionExists(db, ctx, p, organization) {
      CustomGrantsAreAssignable(db, ctx, p, organization);
    }
  }

  lemma CustomGrantsAreAssignable(db: Db, ctx: Context, p: Permission, organization: Option<OrgId>)
    requires WithinCeiling(db) && CustomPermissionExists(db, ctx, p, organization)
    ensures CustomRoleAssignable(p)
  {
  }

  /** In every reachable state, whoever holds a permission reserved from administrators is the owner. */
  lemma ReservedStaysWithOwner(
    steps: seq<Step>, user: UserId, token: Option<BearerToken>, p: Permission, organization: Option<OrgId>)
    requires ReservedFromAdministrators(p)
    requires Decision(Run(EMPTY_DB, steps), user, token, p, organization)
    ensures Run(EMPTY_DB, steps).installation.Some? && Run(EMPTY_DB, steps).installation.value.owner == user
  {
    RunKeepsConsistent(EMPTY_DB, steps);
    ReservedNeedsOwner(Run(EMPTY_DB, steps), user, token, p, organization);
  }

  /** The owner is never locked out of the installation or of a live organization. */
  lemma OwnerIsNeverLockedOut(db: Db, p: Permission, o: OrgId)
    requires db.installation.Some?
    ensures Decision(db, db.installation.value.owner, None, p, None)
    ensures Decision(db, db.installation.value.owner, None, p, Some(o)) <==>
            LiveOrganization(db, db.installation.value.tenant, o)
  {
  }

  // ---- Nobody but the owner changes what an existing member may do ----

  predicate ByOwner(db: Db, step: Step) {
    Demands(step).Some? && db.installation.Some? && step.actor.user == db.installation.value.owner
  }

  // Steps that belong to neither the access operations nor the joining of new principals.
  predicate Environment(step: Step) {
    step.CreateOrganization? || step.SetOrganizationArchived? || step.SetUserActive?
  }

  lemma RefusedWithoutOwner(db: Db, step: Step)
    requires Consistent(db) && Demands(step).Some? && !step.AddServiceSubject? && !ByOwner(db, step)
    ensures Apply(db, step).db == db && Apply(db, step).outcome.Denied?
  {
    var p := Demands(step).value;
    assert ReservedFromAdministrators(p);
    if Decision(db, step.actor.user, step.actor.token, p, None) {
      ReservedNeedsOwner(db, step.actor.user, step.actor.token, p, None);
    }
  }

  // A database with one more principal, whose membership row is new.
  ghost predicate OnlyAddsMember(db: Db, next: Db, joining: UserId, m: MembershipId) {
    && joining !in db.users && m !in db.memberships
    && next == db.(users := next.users, memberships := next.memberships, staff := next.staff)
    && (forall k | k in next.memberships :: k == m || k in db.memberships)
    && (forall k | k in db.memberships :: k in next.memberships && next.memberships[k] == db.memberships[k])
    && (m in next.memberships ==> next.memberships[m].user == joining)
    && (forall s | s in next.staff :: s in db.staff || s.membership == m)
    && (forall s | s in db.staff :: s in next.staff)
  }

  lemma NewMemberLeavesContext(
    db: Db, next: Db, joining: UserId, m: MembershipId, user: UserId, token: Option<BearerToken>)
    requires Consistent(db) && OnlyAddsMember(db, next, joining, m) && user in db.users
    ensures RequireInstallationMember(next, user, token) == RequireInstallationMember(db, user, token)
  {
  }

  lemma NewMemberLeavesDecisions(
    db: Db, next: Db, joining: UserId, m: MembershipId,
    user: UserId, token: Option<BearerToken>, p: Permission, organization: Option<OrgId>)
    requires Consistent(db) && OnlyAddsMember(db, next, joining, m) && user in db.users
    ensures Decision(next, user, token, p, organization) == Decision(db, user, token, p, organization)
  {
    NewMemberLeavesContext(db, next, joining, m, user, token);
    match RequireInstallationMember(db, user, token)
    case Err(_) =>
    case Ok(ctx) =>
      assert forall a | a in db.assignments ::
          AssignmentGrants(next, ctx, db.assignments[a], p, organization)
          == AssignmentGrants(db, ctx, db.assignments[a], p, organization);
      if organization.Some? {
        NewMemberLeavesStaffing(db, next, joining, m, ctx, organization.value);
      }
  }

  lemma NewMemberLeavesStaffing(db: Db, next: Db, joining: UserId, m: MembershipId, ctx: Context, o: OrgId)
    requires Consistent(db) && OnlyAddsMember(db, next, joining, m) && ctx.user in db.users
    ensures StaffedByUser(next, ctx, o) == StaffedByUser(db, ctx, o)
  {
  }

  lemma JoinOnlyAddsMember(db: Db, joining: UserId, account: User, m: MembershipId, row: Membership)
    requires JoinStep(db, joining, account, m, row).outcome.Done?
    ensures OnlyAddsMember(db, JoinStep(db, joining, account, m, row).db, joining, m)
    ensures db.users.Keys <= JoinStep(db, joining, account, m, row).db.users.Keys
  {
  }

  lemma ServiceSubjectOnlyAddsMember(
    db: Db, ctx: Context, joining: UserId, m: MembershipId, organization: Option<OrgId>)
    requires ServiceSubjectStep(db, ctx, joining, m, organization).outcome.Done?
    ensures OnlyAddsMember(db, ServiceSubjectStep(db, ctx, joining, m, organization).db, joining, m)
    ensures db.users.Keys <= ServiceSubjectStep(db, ctx, joining, m, organization).db.users.Keys
  {
  }

  lemma AcceptingLeavesDecisions(
    db: Db, joining: UserId, m: MembershipId, row: Membership,
    user: UserId, token: Option<BearerToken>, p: Permission, organization: Option<OrgId>)
    requires Consistent(db) && user in db.users
    ensures var next := JoinStep(db, joining, User(false, true), m, row).db;
            && user in next.users && next.installation == db.installation
            && Decision(next, user, token, p, organization) == Decision(db, user, token, p, organization)
  {
    hide Consistent, Decision;
    if JoinStep(db, joining, User(false, true), m, row).outcome.Done? {
      JoinOnlyAddsMember(db, joining, User(false, true), m, row);
      NewMemberLeavesDecisions(db, JoinStep(db, joining, User(false, true), m, row).db, joining, m, user, token, p,
                               organization);
    }
  }

  lemma ServiceSubjectLeavesDecisions(
    db: Db, ctx: Context, joining: UserId, m: MembershipId, target: Option<OrgId>,
    user: UserId, token: Option<BearerToken>, p: Permission, organization: Option<OrgId>)
    requires Consistent(db) && user in db.users
    ensures var next := ServiceSubjectStep(db, ctx, joining, m, target).db;
            && user in next.users && next.installation == db.installation
            && Decision(next, user, token, p, organization) == Decision(db, user, token, p, organization)
  {
    hide Consistent, Decision;
    if ServiceSubjectStep(db, ctx, joining, m, target).outcome.Done? {
      ServiceSubjectOnlyAddsMember(db, ctx, joining, m, target);
      NewMemberLeavesDecisions(db, ServiceSubjectStep(db, ctx, joining, m, target).db, joining, m, user, token, p,
                               organization);
    }
  }

  /** A step taken by anybody but the owner leaves every existing member's decisions as they were. */
  lemma OthersLeaveDecisions(
    db: Db, step: Step, user: UserId, token: Option<BearerToken>, p: Permission, organization: Option<OrgId>)
    requires Consistent(db) && db.installation.Some? && user in db.users
    requires !ByOwner(db, step) && !Environment(step)
    ensures user in Apply(db, step).db.users
    ensures Apply(db, step).db.installation == db.installation
    ensures Decision(Apply(db, step).db, user, token, p, organization) == Decision(db, user, token, p, organization)
  {
    hide Consistent, Decision, JoinStep, ServiceSubjectStep, BootstrapStep;
    match step
    case Bootstrap(_, _, _) =>
      BootstrapsOnce(db, step);
    case AcceptInvitation(joining, m, row) =>
      AcceptingLeavesDecisions(db, joining, m, row, user, token, p, organization);
    case AddServiceSubject(actor, joining, m, target) =>
      var access := RequirePermission(db, actor.user, actor.token, actor.hasTotp, Demands(step).value);
      if access.Ok? {
        ServiceSubjectLeavesDecisions(db, access.value, joining, m, target, user, token, p, organization);
      }
    case _ =>
      RefusedWithoutOwner(db, step);
  }

  lemma BootstrapsOnce(db: Db, step: Step)
    requires step.Bootstrap? && db.installation.Some?
    ensures Apply(db, step).db == db
  {
  }

  ghost predicate OwnerTakesNoPart(db: Db, steps: seq<Step>) {
    forall i | 0 <= i < |steps| :: !ByOwner(db, steps[i]) && !Environment(steps[i])
  }

  /** Over any run in which the owner takes no part, no existing member gains or loses anything. */
  lemma {:induction false} RunWithoutOwnerLeavesDecisions(
    db: Db, steps: seq<Step>, user: UserId, token: Option<BearerToken>, p: Permission, organization: Option<OrgId>)
    requires Consistent(db) && db.installation.Some? && user in db.users && OwnerTakesNoPart(db, steps)
    ensures Decision(Run(db, steps), user, token, p, organization) == Decision(db, user, token, p, organization)
    decreases |steps|
  {
    if steps != [] {
      var next := Apply(db, steps[0]).db;
      OthersLeaveDecisions(db, steps[0], user, token, p, organization);
      ApplyKeepsConsistent(db, steps[0]);
      assert forall i | 0 <= i < |steps[1..]| :: steps[1..][i] == steps[i + 1];
      RunWithoutOwnerLeavesDecisions(next, steps[1..], user, token, p, organization);
    }
  }
}

/** Every operation that changes the access tables, as a step from one database to the next. */
module AccessSteps {
  import opened Wrappers
  import opened Permissions
  import opened AccessTables
  import opened Policy
  import opened Text

  // The requesting principal: who it is, what bearer token it carries, and whether it has a second factor.
  datatype Actor = Actor(user: UserId, token: Option<BearerToken>, hasTotp: bool)

  datatype Outcome = Done | Unchanged | Denied(reason: PolicyError) | Invalid | NotFound | Conflict | ConstraintViolated

  datatype Effect = Effect(db: Db, outcome: Outcome)

  datatype Step =
    | Bootstrap(tenant: TenantId, owner: UserId, membership: MembershipId)
    | CreateRole(actor: Actor, role: RoleId, name: string, scope: RoleScope, permissions: set<Permission>)
    | UpdateRole(actor: Actor, role: RoleId, name: string, permissions: set<Permission>)
    | ArchiveRole(actor: Actor, role: RoleId)
    | AssignRole(actor: Actor, assignment: AssignmentId, member: UserId, role: RoleId,
                 organization: Option<OrgId>, collection: Option<CollectionId>)
    | RemoveAssignment(actor: Actor, assignment: AssignmentId)
    | AssignMembershipRole(actor: Actor, member: UserId, builtIn: BuiltInRole)
    | AssignWorkspaceScope(actor: Actor, member: UserId, workspace: WorkspaceScope)
    | ChangeAccessMode(actor: Actor, target: OrgId, mode: AccessMode)
    | AssignStaff(actor: Actor, target: OrgId, member: UserId)
    | RemoveStaff(actor: Actor, target: OrgId, member: UserId)
    | CreateCollection(actor: Actor, group: CollectionId, name: string, organizations: seq<OrgId>)
    | UpdateCollection(actor: Actor, group: CollectionId, name: string, organizations: seq<OrgId>)
    | ArchiveCollection(actor: Actor, group: CollectionId)
      // An accepted invitation, and the principal of a new service token.
    | AcceptInvitation(joining: UserId, membership: MembershipId, row: Membership)
    | AddServiceSubject(actor: Actor, joining: UserId, membership: MembershipId, organization: Option<OrgId>)
      // Changes made elsewhere in the program that these tables are exposed to.
    | CreateOrganization(target: OrgId, record: Organization)
    | SetOrganizationArchived(target: OrgId, archived: bool)
    | SetUserActive(member: UserId, active: bool)

  // The permission each guarded operation demands.
  function Demands(step: Step): Option<Permission> {
    match step
    case CreateRole(_, _, _, _, _) => Some(CUSTOM_ROLES_MANAGE)
    case UpdateRole(_, _, _, _) => Some(CUSTOM_ROLES_MANAGE)
    case ArchiveRole(_, _) => Some(CUSTOM_ROLES_MANAGE)
    case AssignRole(_, _, _, _, _, _) => Some(CUSTOM_ROLES_ASSIGN)
    case RemoveAssignment(_, _) => Some(CUSTOM_ROLES_ASSIGN)
    case AssignMembershipRole(_, _, _) => Some(MEMBERSHIPS_ASSIGN_ROLE)
    case AssignWorkspaceScope(_, _, _) => Some(MEMBERSHIPS_ASSIGN_ROLE)
    case ChangeAccessMode(_, _, _) => Some(ORGANIZATIONS_MANAGE_ACCESS)
    case AssignStaff(_, _, _) => Some(ORGANIZATIONS_ASSIGN_STAFF)
    case RemoveStaff(_, _, _) => Some(ORGANIZATIONS_ASSIGN_STAFF)
    case CreateCollection(_, _, _, _) => Some(ACCESS_COLLECTIONS_MANAGE)
    case UpdateCollection(_, _, _, _) => Some(ACCESS_COLLECTIONS_MANAGE)
    case ArchiveCollection(_, _) => Some(ACCESS_COLLECTIONS_MANAGE)
    case AddServiceSubject(_, _, _, _) => Some(INTEGRATIONS_MANAGE)
    case _ => None
  }

  predicate LiveOrganization(db: Db, tenant: TenantId, o: OrgId) {
    o in db.organizations && db.organizations[o].tenant == tenant && !db.organizations[o].archived
  }

  predicate ActiveRole(db: Db, tenant: TenantId, r: RoleId) {
    r in db.roles && db.roles[r].tenant == tenant && !db.roles[r].archived
  }

  predicate ActiveCollection(db: Db, tenant: TenantId, c: CollectionId) {
    c in db.collections && db.collections[c].tenant == tenant && !db.collections[c].archived
  }

  predicate Delegable(permissions: set<Permission>) {
    permissions != {} && forall p | p in permissions :: CustomRoleAssignable(p)
  }

  // The unique constraints on names, leaving out the row being written.
  predicate RoleNameTaken(db: Db, tenant: TenantId, scope: RoleScope, nameKey: string, r: RoleId) {
    exists k | k in db.roles ::
      k != r && db.roles[k].tenant == tenant && db.roles[k].scope == scope && db.roles[k].nameKey == nameKey
  }

  predicate CollectionNameTaken(db: Db, tenant: TenantId, nameKey: string, c: CollectionId) {
    exists k | k in db.collections ::
      k != c && db.collections[k].tenant == tenant && db.collections[k].nameKey == nameKey
  }

  predicate NoDuplicates(s: seq<OrgId>) {
    forall i, j | 0 <= i < j < |s| :: s[i] != s[j]
  }

  // The edges of one collection replaced by exactly the selected organizations.
  function ReplacedEdges(edges: set<CollectionEdge>, tenant: TenantId, c: CollectionId, selected: seq<OrgId>)
    : set<CollectionEdge>
  {
    (set e | e in edges && !(e.tenant == tenant && e.collection == c)) +
    (set o | o in selected :: CollectionEdge(tenant, c, o))
  }

  const MAX_NAME := 80

  // A role's name is checked as given, before saving collapses it.
  predicate RoleNameAccepted(name: string) {
    name != "" && |name| <= MAX_NAME
  }

  function CreateRoleStep(
    db: Db, tenant: TenantId, r: RoleId, name: string, scope: RoleScope, permissions: set<Permission>): Effect
  {
    if !Delegable(permissions) || !RoleNameAccepted(name) || RoleNameTaken(db, tenant, scope, Collapsed(name), r) then
      Effect(db, Invalid)
    else if r in db.roles then Effect(db, ConstraintViolated)
    else Effect(db.(roles := db.roles[r := CustomRole(tenant, Collapsed(name), scope, false, permissions)]), Done)
  }

  function UpdateRoleStep(
    db: Db, tenant: TenantId, r: RoleId, name: string, permissions: set<Permission>): Effect
  {
    if !Delegable(permissions) then Effect(db, Invalid)
    else if !ActiveRole(db, tenant, r) then Effect(db, NotFound)
    else if !RoleNameAccepted(name) || RoleNameTaken(db, tenant, db.roles[r].scope, Collapsed(name), r) then
      Effect(db, Invalid)
    else
      Effect(db.(roles := db.roles[r := db.roles[r].(nameKey := Collapsed(name), permissions := permissions)]), Done)
  }

  function ArchiveRoleStep(db: Db, tenant: TenantId, r: RoleId): Effect {
    if !ActiveRole(db, tenant, r) then Effect(db, NotFound)
    else Effect(db.(roles := db.roles[r := db.roles[r].(archived := true)]), Done)
  }

  // Whether the requested target has the shape the role's scope demands.
  predicate TargetFits(scope: RoleScope, organization: Option<OrgId>, collection: Option<CollectionId>) {
    match scope
    case TenantScope => organization.None? && collection.None?
    case OrganizationScope => organization.Some? && collection.None?
    case CollectionScope => organization.None? && collection.Some?
  }

  function AssignRoleStep(
    db: Db, installation: Installation, a: AssignmentId, member: UserId, r: RoleId,
    organization: Option<OrgId>, collection: Option<CollectionId>): Effect
  {
    var tenant := installation.tenant;
    match MembershipOf(db, tenant, member)
    case None => Effect(db, NotFound)
    case Some(m) =>
      if member == installation.owner then Effect(db, Invalid)
      else if !ActiveRole(db, tenant, r) then Effect(db, NotFound)
      else if !TargetFits(db.roles[r].scope, organization, collection) then Effect(db, Invalid)
      else if organization.Some? && !LiveOrganization(db, tenant, organization.value) then Effect(db, NotFound)
      else if collection.Some? && !ActiveCollection(db, tenant, collection.value) then Effect(db, NotFound)
      else
        var row := ScopedAssignment(tenant, m, r, organization, collection);
        if exists k | k in db.assignments :: db.assignments[k] == row then Effect(db, Unchanged)
        else if a in db.assignments then Effect(db, ConstraintViolated)
        else Effect(db.(assignments := db.assignments[a := row]), Done)
  }

  function RemoveAssignmentStep(db: Db, tenant: TenantId, a: AssignmentId): Effect {
    if a in db.assignments && db.assignments[a].tenant == tenant then
      Effect(db.(assignments := db.assignments - {a}), Done)
    else Effect(db, NotFound)
  }

  predicate IsServiceAccount(db: Db, user: UserId) {
    user in db.users && db.users[user].serviceAccount
  }

  // One membership row saved back under the table's check constraints.
  function SaveMembership(db: Db, m: MembershipId, row: Membership): Effect
    requires m in db.memberships
  {
    if row == db.memberships[m] then Effect(db, Unchanged)
    else if !MembershipRowOk(row) then Effect(db, ConstraintViolated)
    else Effect(db.(memberships := db.memberships[m := row]), Done)
  }

  function AssignMembershipRoleStep(db: Db, tenant: TenantId, actor: UserId, member: UserId, role: BuiltInRole): Effect {
    if !TenantAssignable(role) || member == actor then Effect(db, Invalid)
    else
      match MembershipOf(db, tenant, member)
      case None => Effect(db, NotFound)
      case Some(m) =>
        if IsServiceAccount(db, member) then Effect(db, NotFound)
        else SaveMembership(db, m, db.memberships[m].(role := role))
  }

  function AssignWorkspaceScopeStep(
    db: Db, tenant: TenantId, actor: UserId, member: UserId, scope: WorkspaceScope): Effect
  {
    if member == actor then Effect(db, Invalid)
    else
      match MembershipOf(db, tenant, member)
      case None => Effect(db, NotFound)
      case Some(m) =>
        if IsServiceAccount(db, member) || db.memberships[m].organization.Some? then Effect(db, NotFound)
        else SaveMembership(db, m, db.memberships[m].(scope := scope))
  }

  function ChangeAccessModeStep(db: Db, tenant: TenantId, o: OrgId, mode: AccessMode): Effect {
    if !LiveOrganization(db, tenant, o) then Effect(db, NotFound)
    else if db.organizations[o].accessMode == mode then Effect(db, Unchanged)
    else Effect(db.(organizations := db.organizations[o := db.organizations[o].(accessMode := mode)]), Done)
  }

  function AssignStaffStep(db: Db, installation: Installation, o: OrgId, member: UserId): Effect {
    if !LiveOrganization(db, installation.tenant, o) then Effect(db, NotFound)
    else if member == installation.owner then Effect(db, Invalid)
    else
      match MembershipOf(db, installation.tenant, member)
      case None => Effect(db, NotFound)
      case Some(m) =>
        var row := StaffAssignment(installation.tenant, o, m);
        if IsServiceAccount(db, member) then Effect(db, NotFound)
        else if row in db.staff then Effect(db, Unchanged)
        else Effect(db.(staff := db.staff + {row}), Done)
  }

  function RemoveStaffStep(db: Db, tenant: TenantId, o: OrgId, member: UserId): Effect {
    if !LiveOrganization(db, tenant, o) then Effect(db, NotFound)
    else
      match MembershipOf(db, tenant, member)
      case None => Effect(db, Unchanged)
      case Some(m) =>
        var row := StaffAssignment(tenant, o, m);
        if row in db.staff then Effect(db.(staff := db.staff - {row}), Done) else Effect(db, Unchanged)
  }

  predicate OrganizationsUsable(db: Db, tenant: TenantId, organizations: seq<OrgId>) {
    forall o | o in organizations :: LiveOrganization(db, tenant, o)
  }

  function CreateCollectionStep(
    db: Db, tenant: TenantId, c: CollectionId, name: string, organizations: seq<OrgId>): Effect
  {
    var nameKey := Collapsed(name);
    if nameKey == "" || !NoDuplicates(organizations) then Effect(db, Invalid)
    else if !OrganizationsUsable(db, tenant, organizations) then Effect(db, NotFound)
    else if |nameKey| > MAX_NAME || CollectionNameTaken(db, tenant, nameKey, c) then Effect(db, Invalid)
    else if c in db.collections then Effect(db, ConstraintViolated)
    else Effect(db.(collections := db.collections[c := Collection(tenant, nameKey, false)],
                    edges := ReplacedEdges(db.edges, tenant, c, organizations)), Done)
  }

  function UpdateCollectionStep(
    db: Db, tenant: TenantId, c: CollectionId, name: string, organizations: seq<OrgId>): Effect
  {
    var nameKey := Collapsed(name);
    if nameKey == "" || !NoDuplicates(organizations) then Effect(db, Invalid)
    else if !OrganizationsUsable(db, tenant, organizations) then Effect(db, NotFound)
    else if !ActiveCollection(db, tenant, c) then Effect(db, NotFound)
    else if |nameKey| > MAX_NAME || CollectionNameTaken(db, tenant, nameKey, c) then Effect(db, Invalid)
    else Effect(db.(collections := db.collections[c := db.collections[c].(nameKey := nameKey)],
                    edges := ReplacedEdges(db.edges, tenant, c, organizations)), Done)
  }

  function ArchiveCollectionStep(db: Db, tenant: TenantId, c: CollectionId): Effect {
    if !ActiveCollection(db, tenant, c) then Effect(db, NotFound)
    else Effect(db.(collections := db.collections[c := db.collections[c].(archived := true)]), Done)
  }

  // A user row and its membership row, created together.
  function JoinStep(db: Db, joining: UserId, account: User, m: MembershipId, row: Membership): Effect {
    if joining in db.users || m in db.memberships || row.user != joining || !MembershipRowOk(row) then
      Effect(db, ConstraintViolated)
    else
      Effect(db.(users := db.users[joining := account], memberships := db.memberships[m := row]), Done)
  }

  function ServiceSubjectStep(
    db: Db, ctx: Context, joining: UserId, m: MembershipId, organization: Option<OrgId>): Effect
  {
    if ctx.token.Some? || ClientPortal(ctx) || !ctx.scope.TenantWide? then Effect(db, Denied(NotAuthorized))
    else if organization.Some? && !LiveOrganization(db, ctx.tenant, organization.value) then Effect(db, NotFound)
    else
      var row := Membership(ctx.tenant, joining, ReadOnly, TenantWide, None);
      var joined := JoinStep(db, joining, User(true, true), m, row);
      if joined.outcome.Done? && organization.Some? then
        Effect(joined.db.(staff := joined.db.staff + {StaffAssignment(ctx.tenant, organization.value, m)}), Done)
      else joined
  }

  function BootstrapStep(db: Db, tenant: TenantId, owner: UserId, m: MembershipId): Effect {
    if db.installation.Some? || db.users != map[] then Effect(db, Conflict)
    else
      var joined := JoinStep(db, owner, User(false, true), m, Membership(tenant, owner, ReadOnly, TenantWide, None));
      if joined.outcome.Done? then Effect(joined.db.(installation := Some(Installation(tenant, owner))), Done)
      else joined
  }

  function CreateOrganizationStep(db: Db, o: OrgId, record: Organization): Effect {
    if o in db.organizations then Effect(db, ConstraintViolated)
    else Effect(db.(organizations := db.organizations[o := record]), Done)
  }

  function SetArchivedStep(db: Db, o: OrgId, archived: bool): Effect {
    if o !in db.organizations then Effect(db, NotFound)
    else Effect(db.(organizations := db.organizations[o := db.organizations[o].(archived := archived)]), Done)
  }

  function SetUserActiveStep(db: Db, u: UserId, active: bool): Effect {
    if u !in db.users then Effect(db, NotFound)
    else Effect(db.(users := db.users[u := db.users[u].(active := active)]), Done)
  }

  function OpenStep(db: Db, step: Step): Effect
    requires Demands(step).None?
  {
    match step
    case Bootstrap(tenant, owner, m) => BootstrapStep(db, tenant, owner, m)
    case AcceptInvitation(joining, m, row) => JoinStep(db, joining, User(false, true), m, row)
    case CreateOrganization(o, record) => CreateOrganizationStep(db, o, record)
    case SetOrganizationArchived(o, archived) => SetArchivedStep(db, o, archived)
    case SetUserActive(u, active) => SetUserActiveStep(db, u, active)
  }

  function GuardedStep(db: Db, ctx: Context, installation: Installation, step: Step): Effect
    requires Demands(step).Some?
  {
    var tenant := installation.tenant;
    match step
    case CreateRole(_, r, name, scope, permissions) => CreateRoleStep(db, tenant, r, name, scope, permissions)
    case UpdateRole(_, r, name, permissions) => UpdateRoleStep(db, tenant, r, name, permissions)
    case ArchiveRole(_, r) => ArchiveRoleStep(db, tenant, r)
    case AssignRole(_, a, member, r, organization, collection) =>
      AssignRoleStep(db, installation, a, member, r, organization, collection)
    case RemoveAssignment(_, a) => RemoveAssignmentStep(db, tenant, a)
    case AssignMembershipRole(actor, member, role) => AssignMembershipRoleStep(db, tenant, actor.user, member, role)
    case AssignWorkspaceScope(actor, member, scope) => AssignWorkspaceScopeStep(db, tenant, actor.user, member, scope)
    case ChangeAccessMode(_, o, mode) => ChangeAccessModeStep(db, tenant, o, mode)
    case AssignStaff(_, o, member) => AssignStaffStep(db, installation, o, member)
    case RemoveStaff(_, o, member) => RemoveStaffStep(db, tenant, o, member)
    case CreateCollection(_, c, name, organizations) => CreateCollectionStep(db, tenant, c, name, organizations)
    case UpdateCollection(_, c, name, organizations) => UpdateCollectionStep(db, tenant, c, name, organizations)
    case ArchiveCollection(_, c) => ArchiveCollectionStep(db, tenant, c)
    case AddServiceSubject(_, joining, m, organization) => ServiceSubjectStep(db, ctx, joining, m, organization)
  }

  function Apply(db: Db, step: Step): Effect {
    match Demands(step)
    case None => OpenStep(db, step)
    case Some(p) =>
      match RequirePermission(db, step.actor.user, step.actor.token, step.actor.hasTotp, p)
      case Err(e) => Effect(db, Denied(e))
      case Ok(ctx) => GuardedStep(db, ctx, db.installation.value, step)
  }

  function Run(db: Db, steps: seq<Step>): Db
    decreases |steps|
  {
    if steps == [] then db else Run(Apply(db, steps[0]).db, steps[1..])
  }
}

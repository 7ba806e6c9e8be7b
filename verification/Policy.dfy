/** Who may do what where: a pointwise decision, and a query for the organizations it admits. */
module Policy {
  import opened Wrappers
  import opened Permissions
  import opened AccessTables

  datatype TokenWorkspace = MspWorkspace | OrganizationWorkspace

  // The bearer credential a request carries, if any.
  datatype BearerToken = BearerToken(
    permissions: set<Permission>, workspace: TokenWorkspace, organization: Option<OrgId>)

  datatype PolicyError = ContextUnavailable | MembershipRequired | NotAuthorized | MfaRequired

  datatype Context = Context(
    tenant: TenantId, user: UserId, role: BuiltInRole, isOwner: bool, membership: Option<MembershipId>,
    organization: Option<OrgId>, scope: WorkspaceScope, token: Option<BearerToken>)

  predicate ClientPortal(ctx: Context) {
    ClientRole(ctx.role)
  }

  function RequireInstallationMember(db: Db, user: UserId, token: Option<BearerToken>): Result<Context, PolicyError> {
    if db.installation.None? then Err(ContextUnavailable)
    else
      var tenant := db.installation.value.tenant;
      if db.installation.value.owner == user then
        Ok(Context(tenant, user, Owner, true, None, None, TenantWide, token))
      else
        match MembershipOf(db, tenant, user)
        case None => Err(MembershipRequired)
        case Some(m) =>
          var row := db.memberships[m];
          Ok(Context(tenant, user, row.role, false, Some(m), row.organization, row.scope, token))
  }

  predicate ContextPermits(ctx: Context, p: Permission) {
    RoleGrants(ctx.role, p) && (ctx.token.Some? ==> p in ctx.token.value.permissions)
  }

  predicate TokenAllows(ctx: Context, p: Permission, organization: Option<OrgId>) {
    ctx.token.Some? ==>
      && p in ctx.token.value.permissions
      && match ctx.token.value.workspace
         case MspWorkspace => organization.None?
         case OrganizationWorkspace => organization.Some? && organization == ctx.token.value.organization
  }

  predicate InCollection(db: Db, c: CollectionId, o: OrgId) {
    exists e | e in db.edges :: e.collection == c && e.organization == o
  }

  // One assignment row, as the pointwise decision reads it.
  predicate AssignmentGrants(db: Db, ctx: Context, a: ScopedAssignment, p: Permission, organization: Option<OrgId>) {
    && a.tenant == ctx.tenant && Some(a.membership) == ctx.membership
    && a.role in db.roles && !db.roles[a.role].archived && p in db.roles[a.role].permissions
    && match db.roles[a.role].scope
       case TenantScope => a.organization.None? && a.collection.None?
       case OrganizationScope => organization.Some? && a.organization == organization && a.collection.None?
       case CollectionScope =>
         && organization.Some? && a.organization.None? && a.collection.Some?
         && a.collection.value in db.collections && !db.collections[a.collection.value].archived
         && InCollection(db, a.collection.value, organization.value)
  }

  predicate CustomPermissionExists(db: Db, ctx: Context, p: Permission, organization: Option<OrgId>) {
    && ctx.membership.Some?
    && exists a | a in db.assignments :: AssignmentGrants(db, ctx, db.assignments[a], p, organization)
  }

  predicate PermissionGranted(db: Db, ctx: Context, p: Permission, organization: Option<OrgId>) {
    ContextPermits(ctx, p) || CustomPermissionExists(db, ctx, p, organization)
  }

  predicate StaffedByUser(db: Db, ctx: Context, o: OrgId) {
    exists s | s in db.staff ::
      && s.tenant == ctx.tenant && s.organization == o
      && s.membership in db.memberships && db.memberships[s.membership].user == ctx.user
  }

  predicate OrganizationAllowed(db: Db, ctx: Context, o: OrgId) {
    if o !in db.organizations || db.organizations[o].tenant != ctx.tenant || db.organizations[o].archived then false
    else if ClientPortal(ctx) then ctx.organization == Some(o)
    else if !ctx.scope.AssignedOrganizations? && db.organizations[o].accessMode.AllAuthorized? then true
    else if ctx.isOwner then true
    else StaffedByUser(db, ctx, o)
  }

  predicate ContextHasPermission(db: Db, ctx: Context, p: Permission, organization: Option<OrgId>) {
    if ClientPortal(ctx) then false
    else if organization.None? && ctx.scope.AssignedOrganizations? then false
    else if !TokenAllows(ctx, p, organization) then false
    else if !PermissionGranted(db, ctx, p, organization) then false
    else organization.None? || OrganizationAllowed(db, ctx, organization.value)
  }

  // The decision for one principal, from the stored rows alone.
  predicate Decision(db: Db, user: UserId, token: Option<BearerToken>, p: Permission, organization: Option<OrgId>) {
    match RequireInstallationMember(db, user, token)
    case Ok(ctx) => ContextHasPermission(db, ctx, p, organization)
    case Err(_) => false
  }

  function RequirePermission(db: Db, user: UserId, token: Option<BearerToken>, hasTotp: bool, p: Permission)
    : (r: Result<Context, PolicyError>)
    ensures r.Ok? <==> Decision(db, user, token, p, None) && (RequiresMfa(p) ==> hasTotp)
    ensures r.Ok? ==> RequireInstallationMember(db, user, token) == r
  {
    match RequireInstallationMember(db, user, token)
    case Err(e) => Err(e)
    case Ok(ctx) =>
      if !ContextHasPermission(db, ctx, p, None) then Err(NotAuthorized)
      else if RequiresMfa(p) && !hasTotp then Err(MfaRequired)
      else Ok(ctx)
  }

  // ---- The set query ----

  // The joins of the query reach assignments from the organization, without naming a tenant.
  predicate LiveRoleGrants(db: Db, role: RoleId, scope: RoleScope, p: Permission) {
    role in db.roles && db.roles[role].scope == scope && !db.roles[role].archived && p in db.roles[role].permissions
  }

  predicate JoinedByOrganization(db: Db, m: MembershipId, p: Permission, o: OrgId) {
    exists a | a in db.assignments ::
      && db.assignments[a].organization == Some(o) && db.assignments[a].membership == m
      && LiveRoleGrants(db, db.assignments[a].role, OrganizationScope, p)
  }

  predicate CollectionGrants(db: Db, m: MembershipId, p: Permission, c: CollectionId) {
    exists a | a in db.assignments ::
      && db.assignments[a].collection == Some(c) && db.assignments[a].membership == m
      && LiveRoleGrants(db, db.assignments[a].role, CollectionScope, p)
  }

  predicate JoinedByCollection(db: Db, m: MembershipId, p: Permission, o: OrgId) {
    exists e | e in db.edges ::
      && e.organization == o
      && e.collection in db.collections && !db.collections[e.collection].archived
      && CollectionGrants(db, m, p, e.collection)
  }

  // The organizations the permission reaches, before the principal's workspace narrows them.
  function GrantedOrganizations(db: Db, ctx: Context, p: Permission): set<OrgId> {
    var live := set o | o in db.organizations
                        && db.organizations[o].tenant == ctx.tenant && !db.organizations[o].archived;
    if ctx.token.Some? && !TokenAllows(ctx, p, ctx.token.value.organization) then {} else
    var inToken := if ctx.token.None? then live
                   else set o | o in live && Some(o) == ctx.token.value.organization;
    if ContextPermits(ctx, p) || CustomPermissionExists(db, ctx, p, None) then inToken
    else if ctx.membership.None? then {}
    else set o | o in inToken
                 && (|| JoinedByOrganization(db, ctx.membership.value, p, o)
                     || JoinedByCollection(db, ctx.membership.value, p, o))
  }

  predicate StaffedBy(db: Db, m: MembershipId, o: OrgId) {
    exists s | s in db.staff :: s.organization == o && s.membership == m
  }

  predicate StaffJoinedToUser(db: Db, user: UserId, o: OrgId) {
    exists s | s in db.staff ::
      s.organization == o && s.membership in db.memberships && db.memberships[s.membership].user == user
  }

  function AccessibleOrganizations(db: Db, ctx: Context, p: Permission): set<OrgId> {
    var granted := GrantedOrganizations(db, ctx, p);
    if ClientPortal(ctx) then
      (if ctx.organization.None? then {} else set o | o in granted && Some(o) == ctx.organization)
    else if ctx.scope.AssignedOrganizations? then
      (if ctx.membership.None? then {} else set o | o in granted && StaffedBy(db, ctx.membership.value, o))
    else if !ctx.isOwner then
      set o | o in granted && o in db.organizations
              && (db.organizations[o].accessMode.AllAuthorized? || StaffJoinedToUser(db, ctx.user, o))
    else granted
  }

  // ---- Agreement of the two readers ----

  lemma DecisionReachesJoins(db: Db, ctx: Context, p: Permission, o: OrgId)
    requires CustomPermissionExists(db, ctx, p, Some(o))
    ensures || CustomPermissionExists(db, ctx, p, None)
            || JoinedByOrganization(db, ctx.membership.value, p, o)
            || JoinedByCollection(db, ctx.membership.value, p, o)
  {
  }

  lemma JoinsReachDecision(db: Db, ctx: Context, p: Permission, o: OrgId)
    requires Linked(db) && ctx.membership.Some? && ctx.membership.value in db.memberships
    requires db.memberships[ctx.membership.value].tenant == ctx.tenant
    requires || CustomPermissionExists(db, ctx, p, None)
             || JoinedByOrganization(db, ctx.membership.value, p, o)
             || JoinedByCollection(db, ctx.membership.value, p, o)
    ensures CustomPermissionExists(db, ctx, p, Some(o))
  {
  }

  lemma StaffJoinsAgree(db: Db, ctx: Context, o: OrgId)
    requires Linked(db) && o in db.organizations && db.organizations[o].tenant == ctx.tenant
    ensures StaffedByUser(db, ctx, o) <==> StaffJoinedToUser(db, ctx.user, o)
    ensures ctx.membership.Some? && ctx.membership.value in db.memberships
            && db.memberships[ctx.membership.value].tenant == ctx.tenant
            && db.memberships[ctx.membership.value].user == ctx.user ==>
            (StaffedByUser(db, ctx, o) <==> StaffedBy(db, ctx.membership.value, o))
  {
  }

  // Whether a client-portal context sees its own organization through the query.
  predicate PortalSeesItsOrganization(db: Db, ctx: Context, p: Permission) {
    && ctx.organization.Some? && ctx.organization.value in db.organizations
    && db.organizations[ctx.organization.value].tenant == ctx.tenant
    && !db.organizations[ctx.organization.value].archived
    && TokenAllows(ctx, p, ctx.organization)
    && PermissionGranted(db, ctx, p, ctx.organization)
  }

  // What the query asks of an organization before the workspace filter.
  predicate QueryGrants(db: Db, ctx: Context, p: Permission, o: OrgId) {
    && (ctx.token.Some? ==> TokenAllows(ctx, p, ctx.token.value.organization)
                            && Some(o) == ctx.token.value.organization)
    && (|| ContextPermits(ctx, p)
        || CustomPermissionExists(db, ctx, p, None)
        || (ctx.membership.Some? && JoinedByOrganization(db, ctx.membership.value, p, o))
        || (ctx.membership.Some? && JoinedByCollection(db, ctx.membership.value, p, o)))
  }

  lemma QueryGrantsMatch(db: Db, ctx: Context, p: Permission, o: OrgId)
    requires Linked(db)
    requires ctx.membership.Some? ==> ctx.membership.value in db.memberships
                                      && db.memberships[ctx.membership.value].tenant == ctx.tenant
    ensures QueryGrants(db, ctx, p, o) <==> TokenAllows(ctx, p, Some(o)) && PermissionGranted(db, ctx, p, Some(o))
  {
    if ctx.membership.Some? {
      if CustomPermissionExists(db, ctx, p, Some(o)) {
        DecisionReachesJoins(db, ctx, p, o);
      } else if || CustomPermissionExists(db, ctx, p, None)
                || JoinedByOrganization(db, ctx.membership.value, p, o)
                || JoinedByCollection(db, ctx.membership.value, p, o) {
        JoinsReachDecision(db, ctx, p, o);
      }
    }
  }

  // Facts every context of the program has.
  predicate ContextOf(db: Db, ctx: Context) {
    && (ctx.isOwner <==> ctx.membership.None?)
    && (ctx.isOwner ==> ctx.role.Owner? && ctx.scope.TenantWide?)
    && (ctx.membership.Some? ==>
          && ctx.membership.value in db.memberships
          && db.memberships[ctx.membership.value].tenant == ctx.tenant
          && db.memberships[ctx.membership.value].user == ctx.user)
  }

  lemma QueryAdmits(db: Db, ctx: Context, p: Permission, o: OrgId)
    requires Linked(db) && ContextOf(db, ctx)
    ensures o in AccessibleOrganizations(db, ctx, p) <==>
            QueryGrants(db, ctx, p, o) && OrganizationAllowed(db, ctx, o)
  {
    if o in db.organizations && db.organizations[o].tenant == ctx.tenant {
      StaffJoinsAgree(db, ctx, o);
    }
    hide StaffedByUser, StaffJoinedToUser, StaffedBy, Linked, TokenAllows, ContextPermits, CustomPermissionExists,
         JoinedByOrganization, JoinedByCollection;
  }

  lemma ContextsAreWellFormed(db: Db, user: UserId, token: Option<BearerToken>)
    requires RequireInstallationMember(db, user, token).Ok?
    ensures ContextOf(db, RequireInstallationMember(db, user, token).value)
  {
  }

  lemma ContextQueryMatches(db: Db, ctx: Context, p: Permission, o: OrgId)
    requires Linked(db) && ContextOf(db, ctx)
    ensures o in AccessibleOrganizations(db, ctx, p) <==>
            if ClientPortal(ctx) then ctx.organization == Some(o) && PortalSeesItsOrganization(db, ctx, p)
            else ContextHasPermission(db, ctx, p, Some(o))
  {
    QueryAdmits(db, ctx, p, o);
    QueryGrantsMatch(db, ctx, p, o);
  }

  /** On a linked database the query returns exactly the organizations the decision admits, for every
      MSP-surface principal; a client-portal principal is denied everywhere, yet queries its own organization. */
  lemma QueryMatchesDecision(db: Db, user: UserId, token: Option<BearerToken>, p: Permission, o: OrgId)
    requires Linked(db) && RequireInstallationMember(db, user, token).Ok?
    ensures var ctx := RequireInstallationMember(db, user, token).value;
            o in AccessibleOrganizations(db, ctx, p) <==>
            if ClientPortal(ctx) then ctx.organization == Some(o) && PortalSeesItsOrganization(db, ctx, p)
            else ContextHasPermission(db, ctx, p, Some(o))
  {
    ContextsAreWellFormed(db, user, token);
    ContextQueryMatches(db, RequireInstallationMember(db, user, token).value, p, o);
  }

  /** The two readers agree for a principal exactly when it is not a portal principal the query would serve. */
  lemma ReadersAgreeExactlyWhen(db: Db, user: UserId, token: Option<BearerToken>, p: Permission)
    requires Linked(db) && RequireInstallationMember(db, user, token).Ok?
    ensures var ctx := RequireInstallationMember(db, user, token).value;
            (forall o :: o in AccessibleOrganizations(db, ctx, p) <==> ContextHasPermission(db, ctx, p, Some(o)))
            <==> !ClientPortal(ctx) || !PortalSeesItsOrganization(db, ctx, p)
  {
    var ctx := RequireInstallationMember(db, user, token).value;
    forall o ensures o in AccessibleOrganizations(db, ctx, p) <==>
                     if ClientPortal(ctx) then ctx.organization == Some(o) && PortalSeesItsOrganization(db, ctx, p)
                     else ContextHasPermission(db, ctx, p, Some(o)) {
      QueryMatchesDecision(db, user, token, p, o);
    }
    if ClientPortal(ctx) && PortalSeesItsOrganization(db, ctx, p) {
      assert ctx.organization.value in AccessibleOrganizations(db, ctx, p);
      assert !ContextHasPermission(db, ctx, p, ctx.organization);
    }
  }

  /** A concrete client administrator for whom the readers disagree. */
  lemma PortalReadersDisagree()
    ensures exists db: Db, ctx: Context, o: OrgId ::
              && Linked(db) && RequireInstallationMember(db, ctx.user, None) == Ok(ctx)
              && o in AccessibleOrganizations(db, ctx, DOCUMENTS_VIEW)
              && !ContextHasPermission(db, ctx, DOCUMENTS_VIEW, Some(o))
  {
    var db := EMPTY_DB.(
      installation := Some(Installation(0, 1)),
      users := map[1 := User(false, true), 2 := User(false, true)],
      organizations := map[5 := Organization(0, false, AssignedOnly)],
      memberships := map[7 := Membership(0, 2, ClientAdministrator, TenantWide, Some(5))]);
    MembershipOfIsTheOne(db, 7);
    var ctx := Context(0, 2, ClientAdministrator, false, Some(7), Some(5), TenantWide, None);
    assert RequireInstallationMember(db, 2, None) == Ok(ctx);
    assert 5 in AccessibleOrganizations(db, ctx, DOCUMENTS_VIEW);
  }

  /** A token narrows a decision to exactly its own permissions in exactly its own workspace. */
  lemma TokenNarrowsExactly(
    db: Db, user: UserId, token: BearerToken, p: Permission, organization: Option<OrgId>)
    requires token.workspace.MspWorkspace? <==> token.organization.None?
    ensures Decision(db, user, Some(token), p, organization) <==>
            && Decision(db, user, None, p, organization)
            && p in token.permissions
            && token.organization == organization
  {
  }
}

/** What a newly issued bearer token may do: exactly its listed permissions, in exactly its one workspace. */
module TokenAuthority {
  import opened Wrappers
  import opened Permissions
  import opened AccessTables
  import opened Policy
  import opened AccessSteps
  import opened AccessProofs
  import opened ApiTokens

  datatype IssueError = NotManager | BadPermissions | BadWorkspace | ExceedsAuthority | SubjectFailed

  datatype Grant = Grant(db: Db, subject: UserId, token: BearerToken)

  // The permissions a token of this kind may list.
  predicate TokenEligible(permissions: set<Permission>, kind: TokenKind) {
    permissions != {} &&
    forall p | p in permissions :: if kind.Service? then ServiceTokenAllowed(p) else TokenAllowed(p)
  }

  predicate WorkspaceFits(db: Db, tenant: TenantId, workspace: TokenWorkspace, organization: Option<OrgId>) {
    match workspace
    case MspWorkspace => organization.None?
    case OrganizationWorkspace => organization.Some? && LiveOrganization(db, tenant, organization.value)
  }

  predicate WithinAuthority(db: Db, ctx: Context, permissions: set<Permission>, organization: Option<OrgId>) {
    forall p | p in permissions :: ContextHasPermission(db, ctx, p, organization)
  }

  // Issuing a token from an interactive session; `joining` and `m` identify a service token's new principal.
  function IssueGrant(
    db: Db, user: UserId, hasTotp: bool, kind: TokenKind, workspace: TokenWorkspace, organization: Option<OrgId>,
    permissions: set<Permission>, joining: UserId, m: MembershipId): Result<Grant, IssueError>
  {
    match RequireInstallationMember(db, user, None)
    case Err(_) => Err(NotManager)
    case Ok(ctx) =>
      if ClientPortal(ctx) || !ctx.scope.TenantWide? || !hasTotp then Err(NotManager)
      else if kind.Service? && RequirePermission(db, user, None, hasTotp, INTEGRATIONS_MANAGE).Err? then Err(NotManager)
      else if !TokenEligible(permissions, kind) then Err(BadPermissions)
      else if !WorkspaceFits(db, ctx.tenant, workspace, organization) then Err(BadWorkspace)
      else if organization.Some? && WORKSPACES_VIEW !in permissions then Err(BadPermissions)
      else if !WithinAuthority(db, ctx, permissions, organization) then Err(ExceedsAuthority)
      else
        var token := BearerToken(permissions, workspace, organization);
        if kind.Personal? then Ok(Grant(db, user, token))
        else
          var joined := ServiceSubjectStep(db, ctx, joining, m, organization);
          if joined.outcome.Done? then Ok(Grant(joined.db, joining, token)) else Err(SubjectFailed)
  }

  lemma ServiceSubjectContext(
    db: Db, ctx: Context, joining: UserId, m: MembershipId, organization: Option<OrgId>)
    requires Linked(db) && db.installation.Some? && ctx.tenant == db.installation.value.tenant
    requires ServiceSubjectStep(db, ctx, joining, m, organization).outcome.Done?
    ensures RequireInstallationMember(ServiceSubjectStep(db, ctx, joining, m, organization).db, joining, None) ==
            Ok(Context(ctx.tenant, joining, ReadOnly, false, Some(m), None, TenantWide, None))
  {
    var next := ServiceSubjectStep(db, ctx, joining, m, organization).db;
    ServiceSubjectKeepsLinked(db, ctx, joining, m, organization);
    MembershipOfIsTheOne(next, m);
  }

  lemma ServiceSubjectMayRead(
    db: Db, ctx: Context, joining: UserId, m: MembershipId, organization: Option<OrgId>, p: Permission)
    requires Linked(db) && db.installation.Some? && ctx.tenant == db.installation.value.tenant
    requires ServiceSubjectStep(db, ctx, joining, m, organization).outcome.Done? && ImplementedRead(p)
    ensures Decision(ServiceSubjectStep(db, ctx, joining, m, organization).db, joining, None, p, organization)
  {
    ServiceSubjectContext(db, ctx, joining, m, organization);
    var next := ServiceSubjectStep(db, ctx, joining, m, organization).db;
    if organization.Some? {
      var row := StaffAssignment(ctx.tenant, organization.value, m);
      assert row in next.staff && row.membership in next.memberships;
    }
  }

  /** Right after issue a token can exercise exactly its listed permissions, in exactly its one workspace. */
  lemma IssuedTokenIsExact(
    db: Db, user: UserId, hasTotp: bool, kind: TokenKind, workspace: TokenWorkspace, organization: Option<OrgId>,
    permissions: set<Permission>, joining: UserId, m: MembershipId, p: Permission, requested: Option<OrgId>)
    requires Linked(db)
    requires IssueGrant(db, user, hasTotp, kind, workspace, organization, permissions, joining, m).Ok?
    ensures var grant := IssueGrant(db, user, hasTotp, kind, workspace, organization, permissions, joining, m).value;
            Decision(grant.db, grant.subject, Some(grant.token), p, requested) <==>
            p in permissions && requested == organization
  {
    var grant := IssueGrant(db, user, hasTotp, kind, workspace, organization, permissions, joining, m).value;
    TokenNarrowsExactly(grant.db, grant.subject, grant.token, p, requested);
    if p in permissions && requested == organization {
      var ctx := RequireInstallationMember(db, user, None).value;
      if kind.Service? {
        ServiceSubjectMayRead(db, ctx, joining, m, organization, p);
      } else {
        assert ContextHasPermission(db, ctx, p, organization);
      }
    }
  }

  /** A personal token never lets its bearer do anything its subject could not do without it, now or later. */
  lemma TokenNeverExceedsSubject(
    db: Db, user: UserId, token: BearerToken, p: Permission, requested: Option<OrgId>)
    requires token.workspace.MspWorkspace? <==> token.organization.None?
    requires Decision(db, user, Some(token), p, requested)
    ensures Decision(db, user, None, p, requested)
  {
  }

  // The owner, or a tenant-wide member that is not a client's.
  predicate ManagesTokens(db: Db, user: UserId) {
    && db.installation.Some?
    && (|| user == db.installation.value.owner
        || exists m | m in db.memberships ::
             && db.memberships[m].tenant == db.installation.value.tenant && db.memberships[m].user == user
             && db.memberships[m].scope == TenantWide
             && db.memberships[m].role !in {ClientAdministrator, ClientUser})
  }

  // Permissions that need no second factor, opening credential references apart; a service token only reads.
  predicate Listable(permissions: set<Permission>, kind: TokenKind) {
    && permissions != {}
    && forall p | p in permissions ::
         !RequiresMfa(p) && p != CREDENTIAL_REFERENCES_OPEN && (kind == Service ==> RoleGrants(ReadOnly, p))
  }

  // The MSP workspace, or one live organization with the permission to see workspaces.
  predicate Placed(db: Db, workspace: TokenWorkspace, organization: Option<OrgId>, permissions: set<Permission>)
    requires db.installation.Some?
  {
    match workspace
    case MspWorkspace => organization == None
    case OrganizationWorkspace =>
      && organization.Some? && organization.value in db.organizations
      && db.organizations[organization.value].tenant == db.installation.value.tenant
      && !db.organizations[organization.value].archived && WORKSPACES_VIEW in permissions
  }

  lemma ManagersAre(db: Db, user: UserId)
    requires Linked(db)
    ensures var access := RequireInstallationMember(db, user, None);
            ManagesTokens(db, user) <==> access.Ok? && !ClientPortal(access.value) && access.value.scope.TenantWide?
  {
    if db.installation.Some? {
      if m :| && m in db.memberships && db.memberships[m].tenant == db.installation.value.tenant
              && db.memberships[m].user == user {
        MembershipOfIsTheOne(db, m);
      }
    }
  }

  /** A token is granted exactly to a manager with a second factor (and, for a service, the integration permission) who
      holds every listed permission in the token's one workspace; a personal token speaks for the manager, a service
      token for its new principal. */
  lemma GrantedExactly(
    db: Db, user: UserId, hasTotp: bool, kind: TokenKind, workspace: TokenWorkspace, organization: Option<OrgId>,
    permissions: set<Permission>, joining: UserId, m: MembershipId)
    requires Linked(db)
    ensures var grant := IssueGrant(db, user, hasTotp, kind, workspace, organization, permissions, joining, m);
            && (grant.Ok? <==>
                  && ManagesTokens(db, user) && hasTotp && Listable(permissions, kind)
                  && Placed(db, workspace, organization, permissions)
                  && (forall p | p in permissions :: Decision(db, user, None, p, organization))
                  && (kind == Service ==> && Decision(db, user, None, INTEGRATIONS_MANAGE, None)
                                          && joining !in db.users && m !in db.memberships))
            && (grant.Ok? ==> && grant.value.token == BearerToken(permissions, workspace, organization)
                              && grant.value.subject == (if kind == Personal then user else joining)
                              && (kind == Personal ==> grant.value.db == db))
  {
    ManagersAre(db, user);
    ListableIsEligible(permissions, kind);
    hide Linked, ContextHasPermission, RequiresMfa, Listable, TokenEligible, ManagesTokens;
  }

  lemma ListableIsEligible(permissions: set<Permission>, kind: TokenKind)
    ensures Listable(permissions, kind) <==> TokenEligible(permissions, kind)
  {
    hide RequiresMfa, ImplementedRead;
  }
}

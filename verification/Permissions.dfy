/** The permission catalogue and the fixed tables every authorization decision is made from. */
module Permissions {

  // Each catalogue key is a code; the constants below name them.
  newtype Permission = code: int | 0 <= code < 69

  const INSTALLATION_MANAGE: Permission := 0
  const WORKSPACES_VIEW: Permission := 1
  const ORGANIZATIONS_VIEW: Permission := 2
  const ORGANIZATIONS_CREATE: Permission := 3
  const ORGANIZATIONS_EDIT: Permission := 4
  const ORGANIZATIONS_ARCHIVE: Permission := 5
  const ORGANIZATIONS_MANAGE_ACCESS: Permission := 6
  const ORGANIZATIONS_ASSIGN_STAFF: Permission := 7
  const PEOPLE_VIEW: Permission := 8
  const PEOPLE_CREATE: Permission := 9
  const PEOPLE_EDIT: Permission := 10
  const PEOPLE_ARCHIVE: Permission := 11
  const SITES_VIEW: Permission := 12
  const SITES_CREATE: Permission := 13
  const SITES_EDIT: Permission := 14
  const SITES_ARCHIVE: Permission := 15
  const CUSTOM_FIELDS_VIEW: Permission := 16
  const CUSTOM_FIELDS_MANAGE: Permission := 17
  const CUSTOM_FIELDS_EDIT_VALUES: Permission := 18
  const RELATIONSHIPS_VIEW: Permission := 19
  const RELATIONSHIPS_CREATE: Permission := 20
  const RELATIONSHIPS_ARCHIVE: Permission := 21
  const INVITATIONS_VIEW: Permission := 22
  const INVITATIONS_CREATE: Permission := 23
  const INVITATIONS_REVOKE: Permission := 24
  const INVITATIONS_RESEND: Permission := 25
  const STAFF_INVITATIONS_VIEW: Permission := 26
  const STAFF_INVITATIONS_CREATE: Permission := 27
  const STAFF_INVITATIONS_REVOKE: Permission := 28
  const STAFF_INVITATIONS_RESEND: Permission := 29
  const MEMBERSHIPS_VIEW: Permission := 30
  const MEMBERSHIPS_ASSIGN_ROLE: Permission := 31
  const CUSTOM_ROLES_VIEW: Permission := 32
  const CUSTOM_ROLES_MANAGE: Permission := 33
  const CUSTOM_ROLES_ASSIGN: Permission := 34
  const ACCESS_COLLECTIONS_VIEW: Permission := 35
  const ACCESS_COLLECTIONS_MANAGE: Permission := 36
  const RECYCLE_BIN_VIEW: Permission := 37
  const RECYCLE_BIN_RESTORE: Permission := 38
  const DOCUMENTS_VIEW: Permission := 39
  const DOCUMENTS_EDIT: Permission := 40
  const DOCUMENTS_PUBLISH: Permission := 41
  const DOCUMENTS_APPROVE: Permission := 42
  const DOCUMENTS_WITHDRAW: Permission := 43
  const ASSETS_VIEW: Permission := 44
  const ASSETS_EDIT: Permission := 45
  const NETWORKS_VIEW: Permission := 46
  const NETWORKS_EDIT: Permission := 47
  const COSTS_VIEW: Permission := 48
  const INVOICES_VIEW: Permission := 49
  const INVOICES_EDIT: Permission := 50
  const INVOICES_ISSUE: Permission := 51
  const INVOICES_VOID: Permission := 52
  const CREDENTIAL_REFERENCES_VIEW: Permission := 53
  const CREDENTIAL_REFERENCES_MANAGE: Permission := 54
  const CREDENTIAL_REFERENCES_OPEN: Permission := 55
  const COMPLIANCE_VIEW: Permission := 56
  const COMPLIANCE_EDIT: Permission := 57
  const DATA_FLOWS_VIEW: Permission := 58
  const DATA_FLOWS_EDIT: Permission := 59
  const DEADLINES_VIEW: Permission := 60
  const DEADLINES_EDIT: Permission := 61
  const DOMAINS_VIEW: Permission := 62
  const DOMAINS_EDIT: Permission := 63
  const INTEGRATIONS_VIEW: Permission := 64
  const INTEGRATIONS_MANAGE: Permission := 65
  const NOTIFICATIONS_MANAGE: Permission := 66
  const SYSTEM_DIAGNOSTICS_VIEW: Permission := 67
  const ACTIVITY_VIEW: Permission := 68

  // Catalogue entries that do not demand a second factor.
  predicate MfaExempt(p: Permission) {
    p == WORKSPACES_VIEW || p == ORGANIZATIONS_VIEW || p == PEOPLE_VIEW || p == SITES_VIEW || p == CUSTOM_FIELDS_VIEW ||
    p == RELATIONSHIPS_VIEW || p == INVITATIONS_VIEW || p == STAFF_INVITATIONS_VIEW || p == MEMBERSHIPS_VIEW ||
    p == CUSTOM_ROLES_VIEW || p == ACCESS_COLLECTIONS_VIEW || p == RECYCLE_BIN_VIEW || p == DOCUMENTS_VIEW ||
    p == ASSETS_VIEW || p == NETWORKS_VIEW || p == COSTS_VIEW || p == INVOICES_VIEW || p == CREDENTIAL_REFERENCES_VIEW ||
    p == CREDENTIAL_REFERENCES_OPEN || p == COMPLIANCE_VIEW || p == DATA_FLOWS_VIEW || p == DEADLINES_VIEW ||
    p == DOMAINS_VIEW || p == INTEGRATIONS_VIEW || p == SYSTEM_DIAGNOSTICS_VIEW || p == ACTIVITY_VIEW
  }

  predicate RequiresMfa(p: Permission) {
    !MfaExempt(p)
  }

  // The reads every tenant role shares.
  predicate ImplementedRead(p: Permission) {
    p == WORKSPACES_VIEW || p == ORGANIZATIONS_VIEW || p == PEOPLE_VIEW || p == SITES_VIEW || p == CUSTOM_FIELDS_VIEW ||
    p == RELATIONSHIPS_VIEW || p == RECYCLE_BIN_VIEW || p == DOCUMENTS_VIEW || p == ASSETS_VIEW || p == NETWORKS_VIEW ||
    p == COMPLIANCE_VIEW || p == DATA_FLOWS_VIEW || p == DEADLINES_VIEW || p == DOMAINS_VIEW || p == INTEGRATIONS_VIEW ||
    p == INVOICES_VIEW
  }

  // The operational changes a technician may make.
  predicate TechnicianMutation(p: Permission) {
    p == PEOPLE_CREATE || p == PEOPLE_EDIT || p == PEOPLE_ARCHIVE || p == SITES_CREATE || p == SITES_EDIT ||
    p == SITES_ARCHIVE || p == CUSTOM_FIELDS_EDIT_VALUES || p == RELATIONSHIPS_CREATE || p == RELATIONSHIPS_ARCHIVE ||
    p == RECYCLE_BIN_RESTORE || p == DOCUMENTS_EDIT || p == CREDENTIAL_REFERENCES_MANAGE || p == ASSETS_EDIT ||
    p == NETWORKS_EDIT || p == COMPLIANCE_EDIT || p == DATA_FLOWS_EDIT || p == DEADLINES_EDIT || p == DOMAINS_EDIT
  }

  // The eleven permissions an administrator does not hold.
  predicate ReservedFromAdministrators(p: Permission) {
    p == INSTALLATION_MANAGE || p == STAFF_INVITATIONS_VIEW || p == STAFF_INVITATIONS_CREATE ||
    p == STAFF_INVITATIONS_REVOKE || p == STAFF_INVITATIONS_RESEND || p == MEMBERSHIPS_ASSIGN_ROLE ||
    p == CUSTOM_ROLES_MANAGE || p == CUSTOM_ROLES_ASSIGN || p == ACCESS_COLLECTIONS_MANAGE ||
    p == ORGANIZATIONS_ASSIGN_STAFF || p == ORGANIZATIONS_MANAGE_ACCESS
  }

  // Grants beyond the technician tables that a custom role may still carry.
  predicate AssignableExtra(p: Permission) {
    p == ORGANIZATIONS_CREATE || p == ORGANIZATIONS_EDIT || p == ORGANIZATIONS_ARCHIVE || p == CUSTOM_FIELDS_MANAGE ||
    p == DOCUMENTS_PUBLISH || p == DOCUMENTS_APPROVE || p == DOCUMENTS_WITHDRAW || p == COSTS_VIEW || p == INVOICES_EDIT ||
    p == INVOICES_ISSUE || p == INVOICES_VOID || p == CREDENTIAL_REFERENCES_VIEW || p == CREDENTIAL_REFERENCES_MANAGE ||
    p == CREDENTIAL_REFERENCES_OPEN || p == ACTIVITY_VIEW
  }

  // The privilege ceiling for custom roles.
  predicate CustomRoleAssignable(p: Permission) {
    ImplementedRead(p) || TechnicianMutation(p) || AssignableExtra(p)
  }

  datatype BuiltInRole =
    | Owner | Administrator | Technician | Contributor | ReadOnly | ClientAdministrator | ClientUser

  predicate TenantAssignable(role: BuiltInRole) {
    role.Administrator? || role.Technician? || role.Contributor? || role.ReadOnly?
  }

  predicate ClientRole(role: BuiltInRole) {
    role.ClientAdministrator? || role.ClientUser?
  }

  // What each built-in role grants by itself.
  predicate RoleGrants(role: BuiltInRole, p: Permission) {
    match role
    case Owner => true
    case Administrator => !ReservedFromAdministrators(p)
    case Technician =>
      ImplementedRead(p) || TechnicianMutation(p) || p == CREDENTIAL_REFERENCES_VIEW || p == CREDENTIAL_REFERENCES_OPEN
    case Contributor => ImplementedRead(p) || p == DOCUMENTS_EDIT
    case ReadOnly => ImplementedRead(p)
    case ClientAdministrator => ImplementedRead(p) || p == DOCUMENTS_EDIT
    case ClientUser => p == WORKSPACES_VIEW || p == DOCUMENTS_VIEW
  }

  // Permissions a bearer token may carry, by the kind of token.
  predicate TokenAllowed(p: Permission) {
    !RequiresMfa(p) && p != CREDENTIAL_REFERENCES_OPEN
  }

  predicate ServiceTokenAllowed(p: Permission) {
    TokenAllowed(p) && ImplementedRead(p)
  }

  // Neither a custom role nor a bearer token can carry anything reserved from administrators,
  // with one exception for tokens: reading staff invitations needs no second factor.
  lemma CeilingsExcludeReserved(p: Permission)
    ensures ReservedFromAdministrators(p) ==> !CustomRoleAssignable(p)
    ensures ReservedFromAdministrators(p) && TokenAllowed(p) <==> p == STAFF_INVITATIONS_VIEW
    ensures forall role: BuiltInRole :: RoleGrants(role, p) && ReservedFromAdministrators(p) ==> role.Owner?
  {
  }

  /** Each tenant role holds what the one below it does, a client administrator what a contributor does, and a client user
      no more than a reader. Reading never demands a second factor; every change a technician or contributor may make
      does, and only viewing and opening credential references comes on top. */
  lemma RolesFormALadder(p: Permission)
    ensures RoleGrants(ReadOnly, p) ==> RoleGrants(Contributor, p)
    ensures RoleGrants(Contributor, p) ==> RoleGrants(Technician, p)
    ensures RoleGrants(Technician, p) ==> RoleGrants(Administrator, p) && CustomRoleAssignable(p)
    ensures RoleGrants(Owner, p)
    ensures RoleGrants(ClientAdministrator, p) <==> RoleGrants(Contributor, p)
    ensures RoleGrants(ClientUser, p) ==> RoleGrants(ReadOnly, p)
    ensures RoleGrants(ReadOnly, p) ==> !RequiresMfa(p)
    ensures RoleGrants(Technician, p) && !RoleGrants(ReadOnly, p) ==>
              RequiresMfa(p) || p == CREDENTIAL_REFERENCES_VIEW || p == CREDENTIAL_REFERENCES_OPEN
    ensures RoleGrants(Contributor, p) && !RoleGrants(ReadOnly, p) <==> p == DOCUMENTS_EDIT
  {
  }
}

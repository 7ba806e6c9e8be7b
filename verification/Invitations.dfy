/** Invitations: a lifecycle whose token rotates, changed by transactions while e-mail is delivered outside them. */
module Invitations {
  import opened Wrappers
  import opened Keys
  import opened Permissions
  import opened AccessTables

  type InvitationId = nat
  type Time = int

  datatype LifecycleState = Pending | Expired | Revoked | Accepted

  // SHA-256 is taken as collision free, so a digest is as good as the token it was made from.
  datatype Digest = EmptyDigest | DigestOf(token: string)

  datatype Invitation = Invitation(
    tenant: TenantId, organization: Option<OrgId>, role: BuiltInRole, scope: WorkspaceScope, email: string,
    digest: Digest, state: LifecycleState, expiresAt: Time,
    acceptedBy: Option<UserId>, acceptedAt: Option<Time>, revokedAt: Option<Time>,
    lastSentAt: Option<Time>, lastDeliveryFailedAt: Option<Time>, deliveryAttempts: nat, sendCount: nat)

  datatype Member = Member(
    tenant: TenantId, role: BuiltInRole, organization: Option<OrgId>, scope: WorkspaceScope)

  // The invitation rows, the e-mail of every account, and the memberships acceptance has created.
  datatype InvitationDb = InvitationDb(
    rows: map<InvitationId, Invitation>, users: map<UserId, string>, members: map<UserId, Member>)

  datatype Outcome =
    | Sending | RevokedNow | AcceptedAs(user: UserId) | Conflict | NotFound | Unavailable | PasswordRejected

  datatype Effect = Effect(db: InvitationDb, outcome: Outcome)

  datatype Request = Request(
    tenant: TenantId, organization: Option<OrgId>, organizationTenant: TenantId,
    role: BuiltInRole, scope: WorkspaceScope, email: string)

  // ---- The transactions ----

  predicate EmailInUse(db: InvitationDb, email: string) {
    exists u | u in db.users :: db.users[u] == email
  }

  function PendingFor(rows: map<InvitationId, Invitation>, tenant: TenantId, email: string): Option<InvitationId> {
    First(set i | i in rows && rows[i].tenant == tenant && rows[i].email == email && rows[i].state.Pending?)
  }

  function WithDigest(rows: map<InvitationId, Invitation>, digest: Digest): Option<InvitationId> {
    First(set i | i in rows && rows[i].digest == digest)
  }

  function MarkExpired(row: Invitation): Invitation {
    row.(state := Expired, digest := EmptyDigest)
  }

  // The check constraints of the invitation table.
  predicate RowOk(row: Invitation) {
    && (row.state.Pending? <==> !row.digest.EmptyDigest?)
    && (row.state.Accepted? <==> row.acceptedAt.Some?) && (row.acceptedAt.Some? <==> row.acceptedBy.Some?)
    && (row.state.Revoked? <==> row.revokedAt.Some?)
    && !row.role.Owner? && (ClientRole(row.role) <==> row.organization.Some?)
    && (ClientRole(row.role) ==> row.scope.TenantWide?)
  }

  function NewRow(request: Request, token: string, expiresAt: Time): Invitation {
    Invitation(request.tenant, request.organization, request.role, request.scope, request.email,
               DigestOf(token), Pending, expiresAt, None, None, None, None, None, 1, 0)
  }

  function Issue(db: InvitationDb, i: InvitationId, request: Request, token: string, now: Time, expiresAt: Time): Effect {
    if request.organization.Some? && request.organizationTenant != request.tenant then Effect(db, Conflict)
    else if request.organization.None? != !ClientRole(request.role) then Effect(db, Conflict)
    else if EmailInUse(db, request.email) then Effect(db, Conflict)
    else
      var existing := PendingFor(db.rows, request.tenant, request.email);
      if existing.Some? && db.rows[existing.value].expiresAt > now then Effect(db, Conflict)
      else
        var row := NewRow(request, token, expiresAt);
        if i in db.rows || !RowOk(row) then Effect(db, Conflict)
        else
          var cleared := if existing.Some? then db.rows[existing.value := MarkExpired(db.rows[existing.value])]
                         else db.rows;
          Effect(db.(rows := cleared[i := row]), Sending)
  }

  // A pending row whose expiry has not passed; the only rows that may be resent or revoked.
  predicate Open(db: InvitationDb, i: InvitationId, now: Time) {
    i in db.rows && db.rows[i].state.Pending? && db.rows[i].expiresAt > now
  }

  function Resend(db: InvitationDb, i: InvitationId, token: string, now: Time, expiresAt: Time): Effect {
    if i !in db.rows then Effect(db, NotFound)
    else if !Open(db, i, now) then Effect(db, Conflict)
    else
      var row := db.rows[i];
      Effect(db.(rows := db.rows[i := row.(digest := DigestOf(token), expiresAt := expiresAt,
                                           deliveryAttempts := row.deliveryAttempts + 1)]), Sending)
  }

  function Revoke(db: InvitationDb, i: InvitationId, now: Time): Effect {
    if i !in db.rows then Effect(db, NotFound)
    else if !Open(db, i, now) then Effect(db, Conflict)
    else
      Effect(db.(rows := db.rows[i := db.rows[i].(state := Revoked, revokedAt := Some(now), digest := EmptyDigest)]),
             RevokedNow)
  }

  predicate TokenCharacter(c: char) {
    'A' <= c <= 'Z' || 'a' <= c <= 'z' || '0' <= c <= '9' || c == '_' || c == '-'
  }

  predicate TokenShape(token: string) {
    43 <= |token| <= 128 && forall k | 0 <= k < |token| :: TokenCharacter(token[k])
  }

  function AcceptRow(row: Invitation, user: UserId, now: Time): Invitation {
    row.(state := Accepted, acceptedBy := Some(user), acceptedAt := Some(now), digest := EmptyDigest)
  }

  function MemberFrom(row: Invitation): Member {
    Member(row.tenant, row.role, row.organization, row.scope)
  }

  function Accept(db: InvitationDb, token: string, passwordOk: bool, user: UserId, now: Time): Effect {
    if !TokenShape(token) then Effect(db, Unavailable)
    else
      // The digest found already is the token's, so the later comparison of the two cannot fail.
      match WithDigest(db.rows, DigestOf(token))
      case None => Effect(db, Unavailable)
      case Some(i) =>
        var row := db.rows[i];
        if !row.state.Pending? then Effect(db, Unavailable)
        else if row.expiresAt <= now then Effect(db.(rows := db.rows[i := MarkExpired(row)]), Unavailable)
        else if EmailInUse(db, row.email) then Effect(db, Unavailable)
        else if !passwordOk then Effect(db, PasswordRejected)
        else if user in db.users || user in db.members then Effect(db, Unavailable)
        else
          Effect(InvitationDb(db.rows[i := AcceptRow(row, user, now)],
                    db.users[user := row.email],
                    db.members[user := MemberFrom(row)]),
                 AcceptedAs(user))
  }

  function Delivered(db: InvitationDb, i: InvitationId, now: Time): InvitationDb {
    if i !in db.rows then db
    else
      db.(rows := db.rows[i := db.rows[i].(lastSentAt := Some(now), lastDeliveryFailedAt := None,
                                           sendCount := db.rows[i].sendCount + 1)])
  }

  function DeliveryFailed(db: InvitationDb, i: InvitationId, now: Time): InvitationDb {
    if i !in db.rows then db
    else db.(rows := db.rows[i := db.rows[i].(lastDeliveryFailedAt := Some(now))])
  }
}

/** What each invitation transaction leaves in the stored rows, and what becomes of the tokens issued before it. */
module InvitationEffects {
  import opened Wrappers
  import opened Permissions
  import opened AccessTables
  import opened Invitations
  import opened InvitationRuns

  // ---- Revocation ----

  /** A revocation answers so exactly for a pending, unexpired row, which it leaves revoked, dated and without a digest;
      every other answer leaves the tables alone. */
  lemma RevokedExactly(db: InvitationDb, i: InvitationId, now: Time)
    ensures var effect := Revoke(db, i, now);
            && (effect.outcome == RevokedNow <==>
                  i in db.rows && db.rows[i].state == Pending && db.rows[i].expiresAt > now)
            && (effect.outcome == NotFound <==> i !in db.rows)
            && (if effect.outcome != RevokedNow then effect.db == db
                else effect.db == db.(rows := db.rows[i := db.rows[i].(state := Revoked, revokedAt := Some(now),
                                                                       digest := EmptyDigest)]))
  {
  }

  lemma RevocationKillsTokens(w: World, i: InvitationId, now: Time, token: string)
    requires Invariant(w) && Open(w.db, i, now) && token in w.issuedFor && w.issuedFor[token] == i
    ensures token in Apply(w, RevokeStep(i, now)).issuedFor && !Live(Apply(w, RevokeStep(i, now)), token)
  {
    RevokedExactly(w.db, i, now);
    hide Revoke, Invariant;
  }

  /** Once an open invitation is revoked, none of the tokens ever issued for it is redeemed, however the run goes on. */
  lemma RevokedIsNeverRedeemed(
    w: World, i: InvitationId, now: Time, token: string, steps: seq<Step>, ok: bool, user: UserId, later: Time)
    requires Invariant(w) && Open(w.db, i, now) && token in w.issuedFor && w.issuedFor[token] == i
    requires PossibleRun(Apply(w, RevokeStep(i, now)), steps)
    ensures !Accept(Run(Apply(w, RevokeStep(i, now)), steps).db, token, ok, user, later).outcome.AcceptedAs?
  {
    hide Accept, Invariant, Apply, Run, PossibleRun, Live, TokenShape, EmailInUse;
    var revoked := Apply(w, RevokeStep(i, now));
    RevocationKillsTokens(w, i, now, token);
    ApplyKeepsInvariant(w, RevokeStep(i, now));
    RunKeepsDead(revoked, steps, token);
    RunKeepsInvariant(revoked, steps);
    RedeemedExactlyWhen(Run(revoked, steps), token, ok, user, later);
  }

  // ---- The other transactions ----

  // What a request must satisfy by itself: an organization of the tenant for a client role, and only for one.
  predicate RequestOk(request: Request) {
    && request.role != Owner
    && (request.role in {ClientAdministrator, ClientUser} <==> request.organization.Some?)
    && (request.organization.Some? ==> request.organizationTenant == request.tenant && request.scope == TenantWide)
  }

  // A pending row of the same address in the same tenant.
  predicate Competes(row: Invitation, request: Request) {
    row.state == Pending && row.tenant == request.tenant && row.email == request.email
  }

  ghost predicate Issuable(db: InvitationDb, i: InvitationId, request: Request, now: Time) {
    && RequestOk(request) && i !in db.rows
    && (forall u | u in db.users :: db.users[u] != request.email)
    && (forall k | k in db.rows && Competes(db.rows[k], request) :: db.rows[k].expiresAt <= now)
  }

  // The pending rows of an address are the one the transaction finds.
  ghost predicate FoundAlone(rows: Rows, request: Request) {
    var found := PendingFor(rows, request.tenant, request.email);
    && (found.Some? ==> found.value in rows && Competes(rows[found.value], request))
    && (forall k | k in rows && Competes(rows[k], request) :: found == Some(k))
  }

  lemma PendingIsFoundAlone(rows: Rows, request: Request)
    requires OnePendingPerEmail(rows)
    ensures FoundAlone(rows, request)
  {
    forall k | k in rows && Competes(rows[k], request)
      ensures PendingFor(rows, request.tenant, request.email) == Some(k) {
      PendingForFinds(rows, request.tenant, request.email, k);
    }
  }

  lemma IssueDecides(db: InvitationDb, i: InvitationId, request: Request, token: string, now: Time, expiresAt: Time)
    requires FoundAlone(db.rows, request)
    ensures var effect := Issue(db, i, request, token, now, expiresAt);
            if Issuable(db, i, request, now) then effect.outcome == Sending else effect == Effect(db, Conflict)
  {
    hide PendingFor;
  }

  lemma IssueWrites(db: InvitationDb, i: InvitationId, request: Request, token: string, now: Time, expiresAt: Time)
    requires FoundAlone(db.rows, request) && Issue(db, i, request, token, now, expiresAt).outcome == Sending
    ensures var after := Issue(db, i, request, token, now, expiresAt).db;
            && after == db.(rows := after.rows) && after.rows.Keys == db.rows.Keys + {i} && i !in db.rows
            && after.rows[i] == Invitation(
                 request.tenant, request.organization, request.role, request.scope, request.email, DigestOf(token),
                 Pending, expiresAt, None, None, None, None, None, 1, 0)
            && forall k | k in db.rows ::
                 after.rows[k] == if Competes(db.rows[k], request)
                                  then db.rows[k].(state := Expired, digest := EmptyDigest) else db.rows[k]
  {
    hide PendingFor, EmailInUse, RowOk;
  }

  /** An invitation is issued exactly for a proper request to an address without an account, when no unexpired invitation
      of the tenant is pending there. The new row says what was asked for; expired ones of the address are closed. */
  lemma IssuedExactly(w: World, i: InvitationId, request: Request, token: string, now: Time, expiresAt: Time)
    requires Invariant(w)
    ensures var effect := Issue(w.db, i, request, token, now, expiresAt);
            && (effect.outcome == Sending <==> Issuable(w.db, i, request, now))
            && (effect.outcome != Sending ==> effect == Effect(w.db, Conflict))
            && (effect.outcome == Sending ==>
                  && effect.db == w.db.(rows := effect.db.rows) && effect.db.rows.Keys == w.db.rows.Keys + {i}
                  && effect.db.rows[i] == Invitation(
                       request.tenant, request.organization, request.role, request.scope, request.email, DigestOf(token),
                       Pending, expiresAt, None, None, None, None, None, 1, 0)
                  && forall k | k in w.db.rows ::
                       effect.db.rows[k] == if Competes(w.db.rows[k], request)
                                            then w.db.rows[k].(state := Expired, digest := EmptyDigest) else w.db.rows[k])
  {
    PendingIsFoundAlone(w.db.rows, request);
    IssueDecides(w.db, i, request, token, now, expiresAt);
    hide Invariant, Issue, Issuable, FoundAlone, Competes;
    if Issuable(w.db, i, request, now) {
      IssueWrites(w.db, i, request, token, now, expiresAt);
    }
  }

  /** A resend gives an open invitation the new token's digest, the new expiry and one more attempt, and nothing else. */
  lemma ResentExactly(db: InvitationDb, i: InvitationId, token: string, now: Time, expiresAt: Time)
    ensures var effect := Resend(db, i, token, now, expiresAt);
            && (effect.outcome == Sending <==>
                  i in db.rows && db.rows[i].state == Pending && db.rows[i].expiresAt > now)
            && (effect.outcome == NotFound <==> i !in db.rows)
            && (if effect.outcome != Sending then effect.db == db
                else effect.db == db.(rows := db.rows[i := db.rows[i].(
                       digest := DigestOf(token), expiresAt := expiresAt,
                       deliveryAttempts := db.rows[i].deliveryAttempts + 1)]))
  {
  }

  /** A redemption creates the account of the invited address and a membership with the invited tenant, role, organization
      and scope, and leaves the row accepted, by whom and when, without its digest. */
  lemma RedeemedLeaves(w: World, token: string, ok: bool, user: UserId, now: Time)
    requires Invariant(w) && Accept(w.db, token, ok, user, now).outcome.AcceptedAs?
    ensures token in w.issuedFor && w.issuedFor[token] in w.db.rows
    ensures var i, effect := w.issuedFor[token], Accept(w.db, token, ok, user, now);
            var row := w.db.rows[i];
            && effect.outcome == AcceptedAs(user)
            && effect.db.users == w.db.users[user := row.email]
            && effect.db.members == w.db.members[user := Member(row.tenant, row.role, row.organization, row.scope)]
            && effect.db.rows == w.db.rows[i := row.(state := Accepted, acceptedBy := Some(user), acceptedAt := Some(now),
                                                     digest := EmptyDigest)]
  {
    DigestFindsNewest(w, token);
    hide Invariant, TokenShape, EmailInUse;
  }

  /** An acceptance that does not redeem changes at most the state and digest of its own expired row; it is the password
      it complains of exactly when nothing else is wrong but a user that exists already. */
  lemma NotRedeemedLeaves(w: World, token: string, ok: bool, user: UserId, now: Time)
    requires Invariant(w) && !Accept(w.db, token, ok, user, now).outcome.AcceptedAs?
    ensures var effect := Accept(w.db, token, ok, user, now);
            && (effect.outcome == PasswordRejected <==>
                  && !ok && TokenShape(token) && Live(w, token)
                  && w.db.rows[w.issuedFor[token]].expiresAt > now
                  && forall u | u in w.db.users :: w.db.users[u] != w.db.rows[w.issuedFor[token]].email)
            && (effect.outcome != PasswordRejected ==> effect.outcome == Unavailable)
            && (if TokenShape(token) && Live(w, token) && w.db.rows[w.issuedFor[token]].expiresAt <= now
                then var i := w.issuedFor[token];
                     effect.db == w.db.(rows := w.db.rows[i := w.db.rows[i].(state := Expired, digest := EmptyDigest)])
                else effect.db == w.db)
  {
    DigestFindsNewest(w, token);
    hide Invariant, TokenShape;
  }

  /** A string is looked up as a token only if it has 43 to 128 characters, each an ASCII letter or digit, a hyphen or an
      underscore. */
  lemma TokensAreUrlSafe(token: string)
    ensures TokenShape(token)
       <==> && 43 <= |token| <= 128
            && forall k | 0 <= k < |token| ::
                 var point := token[k] as int;
                 48 <= point <= 57 || 65 <= point <= 90 || 97 <= point <= 122 || point == 45 || point == 95
  {
  }

  /** A finished delivery is dated, clears the last failure and counts one send; a failed one is dated only. Nothing is
      recorded for a row that is not there. */
  lemma DeliveryLeaves(db: InvitationDb, i: InvitationId, now: Time)
    ensures i in db.rows ==>
              && Delivered(db, i, now) == db.(rows := db.rows[i := db.rows[i].(
                   lastSentAt := Some(now), lastDeliveryFailedAt := None, sendCount := db.rows[i].sendCount + 1)])
              && DeliveryFailed(db, i, now) == db.(rows := db.rows[i := db.rows[i].(lastDeliveryFailedAt := Some(now))])
    ensures i !in db.rows ==> Delivered(db, i, now) == db && DeliveryFailed(db, i, now) == db
  {
  }

  /** In every reachable state a row has a digest exactly while it is pending, names its acceptance or revocation exactly
      in those states, never offers the owner's role, and belongs to an organization exactly for a client role. */
  lemma ReachableRowsAreSound(steps: seq<Step>, i: InvitationId)
    requires PossibleRun(START, steps) && i in Run(START, steps).db.rows
    ensures var row := Run(START, steps).db.rows[i];
            && (row.state == Pending <==> row.digest != EmptyDigest)
            && (row.state == Accepted <==> row.acceptedAt.Some?) && (row.state == Accepted <==> row.acceptedBy.Some?)
            && (row.state == Revoked <==> row.revokedAt.Some?)
            && row.role != Owner && (row.role in {ClientAdministrator, ClientUser} <==> row.organization.Some?)
            && (row.organization.Some? ==> row.scope == TenantWide)
  {
    StartKeepsInvariant(steps);
    assert RowOk(Run(START, steps).db.rows[i]);
    hide Run, PossibleRun;
  }
}

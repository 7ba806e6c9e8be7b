/** Invitations as they run: every transaction, and every delivery record outside one, written in place. */
module InvitationStore {
  import opened Wrappers
  import opened Permissions
  import opened AccessTables
  import opened Invitations
  import opened InvitationRuns

  // The tables a step leaves; the account beside them has no say in it.
  function TablesAfter(db: InvitationDb, step: Step): InvitationDb {
    match step
    case IssueStep(i, request, token, now, expiresAt) => Issue(db, i, request, token, now, expiresAt).db
    case ResendStep(i, token, now, expiresAt) => Resend(db, i, token, now, expiresAt).db
    case RevokeStep(i, now) => Revoke(db, i, now).db
    case AcceptStep(token, passwordOk, user, now) => Accept(db, token, passwordOk, user, now).db
    case DeliveredStep(i, now) => Delivered(db, i, now)
    case FailedStep(i, now) => DeliveryFailed(db, i, now)
    case RegisterStep(user, email) => db.(users := db.users[user := email])
  }

  lemma AccountHasNoSay(w: World, step: Step)
    ensures Apply(w, step).db == TablesAfter(w.db, step)
  {
    hide Issue, Resend, Revoke, Accept, Delivered, DeliveryFailed, WithDigest;
  }

  lemma StepKeeps(w: World, step: Step)
    ensures Apply(w, step).db == TablesAfter(w.db, step)
    ensures Invariant(w) && Possible(w, step) ==> Invariant(Apply(w, step))
  {
    AccountHasNoSay(w, step);
    hide Invariant, Possible, Apply;
    if Invariant(w) && Possible(w, step) {
      ApplyKeepsInvariant(w, step);
    }
  }

  class Store {
    var rows: map<InvitationId, Invitation>
    var users: map<UserId, string>
    var members: map<UserId, Member>
    ghost var world: World   // the tables with the account of tokens, redemptions and deliveries kept beside them

    function Tables(): InvitationDb
      reads this
    {
      InvitationDb(rows, users, members)
    }

    // Every operation keeps the account of the tables it leaves, and with it the invariant of every run.
    constructor ()
      ensures world == START && world.db == Tables() && Invariant(world)
    {
      rows, users, members := map[], map[], map[];
      world := START;
    }

    // A conflicting insert raises after the stale row was marked, so the marking is undone with it.
    method IssueInvitation(i: InvitationId, request: Request, token: string, now: Time, expiresAt: Time)
      returns (outcome: Outcome)
      modifies this`rows, this`world
      ensures Effect(Tables(), outcome) == Issue(old(Tables()), i, request, token, now, expiresAt)
      ensures world == Apply(old(world), IssueStep(i, request, token, now, expiresAt))
      ensures old(world).db == old(Tables()) ==> world.db == Tables()
      ensures Invariant(old(world)) && Possible(old(world), IssueStep(i, request, token, now, expiresAt)) ==> Invariant(world)
    {
      StepKeeps(world, IssueStep(i, request, token, now, expiresAt));
      world := Apply(world, IssueStep(i, request, token, now, expiresAt));
      hide Invariant, Possible, Apply;
      if request.organization.Some? && request.organizationTenant != request.tenant {
        return Conflict;
      }
      if request.organization.None? != !ClientRole(request.role) {
        return Conflict;
      }
      var savepoint := rows;
      if EmailInUse(Tables(), request.email) {
        return Conflict;
      }
      var existing := PendingFor(rows, request.tenant, request.email);
      if existing.Some? {
        if rows[existing.value].expiresAt > now {
          return Conflict;
        }
        rows := rows[existing.value := MarkExpired(rows[existing.value])];
      }
      var invitation := NewRow(request, token, expiresAt);
      if i in rows || !RowOk(invitation) {
        rows := savepoint;
        return Conflict;
      }
      rows := rows[i := invitation];
      return Sending;
    }

    // Marking an expired row is undone by the conflict raised in the same transaction.
    method ResendInvitation(i: InvitationId, token: string, now: Time, expiresAt: Time) returns (outcome: Outcome)
      modifies this`rows, this`world
      ensures Effect(Tables(), outcome) == Resend(old(Tables()), i, token, now, expiresAt)
      ensures world == Apply(old(world), ResendStep(i, token, now, expiresAt))
      ensures old(world).db == old(Tables()) ==> world.db == Tables()
      ensures Invariant(old(world)) && Possible(old(world), ResendStep(i, token, now, expiresAt)) ==> Invariant(world)
    {
      StepKeeps(world, ResendStep(i, token, now, expiresAt));
      world := Apply(world, ResendStep(i, token, now, expiresAt));
      hide Invariant, Possible, Apply;
      if i !in rows {
        return NotFound;
      }
      var savepoint := rows;
      var current := rows[i];
      if current.state.Pending? && current.expiresAt <= now {
        current := MarkExpired(current);
        rows := rows[i := current];
      }
      if !current.state.Pending? {
        rows := savepoint;
        return Conflict;
      }
      current := current.(digest := DigestOf(token));
      current := current.(expiresAt := expiresAt);
      current := current.(deliveryAttempts := current.deliveryAttempts + 1);
      rows := rows[i := current];
      return Sending;
    }

    method RevokeInvitation(i: InvitationId, now: Time) returns (outcome: Outcome)
      modifies this`rows, this`world
      ensures Effect(Tables(), outcome) == Revoke(old(Tables()), i, now)
      ensures world == Apply(old(world), RevokeStep(i, now))
      ensures old(world).db == old(Tables()) ==> world.db == Tables()
      ensures Invariant(old(world)) && Possible(old(world), RevokeStep(i, now)) ==> Invariant(world)
    {
      StepKeeps(world, RevokeStep(i, now));
      world := Apply(world, RevokeStep(i, now));
      hide Invariant, Possible, Apply;
      if i !in rows {
        return NotFound;
      }
      var savepoint := rows;
      var current := rows[i];
      if current.state.Pending? && current.expiresAt <= now {
        current := MarkExpired(current);
        rows := rows[i := current];
      }
      if !current.state.Pending? {
        rows := savepoint;
        return Conflict;
      }
      current := current.(state := Revoked);
      current := current.(revokedAt := Some(now));
      current := current.(digest := EmptyDigest);
      rows := rows[i := current];
      return RevokedNow;
    }

    // Acceptance reports failure only after its transaction, so an expiry it marks is kept.
    method AcceptInvitation(token: string, passwordOk: bool, user: UserId, now: Time) returns (outcome: Outcome)
      modifies this
      ensures Effect(Tables(), outcome) == Accept(old(Tables()), token, passwordOk, user, now)
      ensures world == Apply(old(world), AcceptStep(token, passwordOk, user, now))
      ensures old(world).db == old(Tables()) ==> world.db == Tables()
      ensures Invariant(old(world)) && Possible(old(world), AcceptStep(token, passwordOk, user, now)) ==> Invariant(world)
    {
      StepKeeps(world, AcceptStep(token, passwordOk, user, now));
      world := Apply(world, AcceptStep(token, passwordOk, user, now));
      hide Invariant, Possible, Apply, TokenShape, EmailInUse, WithDigest;
      if !TokenShape(token) {
        return Unavailable;
      }
      outcome := Unavailable;
      var found := WithDigest(rows, DigestOf(token));
      if found.Some? && rows[found.value].state.Pending? {
        var invitation := rows[found.value];
        if invitation.expiresAt <= now {
          rows := rows[found.value := MarkExpired(invitation)];
        } else if EmailInUse(Tables(), invitation.email) {
        } else if !passwordOk {
          outcome := PasswordRejected;
        } else if user !in users && user !in members {
          users := users[user := invitation.email];
          members := members[user := MemberFrom(invitation)];
          invitation := invitation.(state := Accepted, acceptedBy := Some(user));
          invitation := invitation.(acceptedAt := Some(now), digest := EmptyDigest);
          rows := rows[found.value := invitation];
          outcome := AcceptedAs(user);
        }
      }
    }

    method RecordDelivered(i: InvitationId, now: Time)
      modifies this`rows, this`world
      ensures Tables() == Delivered(old(Tables()), i, now)
      ensures world == Apply(old(world), DeliveredStep(i, now))
      ensures old(world).db == old(Tables()) ==> world.db == Tables()
      ensures Invariant(old(world)) && Possible(old(world), DeliveredStep(i, now)) ==> Invariant(world)
    {
      StepKeeps(world, DeliveredStep(i, now));
      world := Apply(world, DeliveredStep(i, now));
      hide Invariant, Possible, Apply;
      if i in rows {
        var current := rows[i];
        current := current.(lastSentAt := Some(now));
        current := current.(lastDeliveryFailedAt := None);
        current := current.(sendCount := current.sendCount + 1);
        rows := rows[i := current];
      }
    }

    method RecordDeliveryFailed(i: InvitationId, now: Time)
      modifies this`rows, this`world
      ensures Tables() == DeliveryFailed(old(Tables()), i, now)
      ensures world == Apply(old(world), FailedStep(i, now))
      ensures old(world).db == old(Tables()) ==> world.db == Tables()
      ensures Invariant(old(world)) && Possible(old(world), FailedStep(i, now)) ==> Invariant(world)
    {
      StepKeeps(world, FailedStep(i, now));
      world := Apply(world, FailedStep(i, now));
      hide Invariant, Possible, Apply;
      if i in rows {
        rows := rows[i := rows[i].(lastDeliveryFailedAt := Some(now))];
      }
    }
  }
}

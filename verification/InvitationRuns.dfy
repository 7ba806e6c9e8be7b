/** Every interleaving of the invitation transactions with e-mail deliveries still in flight. */
module InvitationRuns {
  import opened Wrappers
  import opened Keys
  import opened AccessTables
  import opened Invitations

  type Rows = map<InvitationId, Invitation>

  // The stored rows, the deliveries under way, and what has happened so far: which invitation each token was
  // issued for, the newest token of each invitation, the token each acceptance redeemed, the invitation each
  // member joined by, and the deliveries that ended either way.
  datatype World = World(
    db: InvitationDb, inFlight: multiset<InvitationId>,
    issuedFor: map<string, InvitationId>, newest: map<InvitationId, string>,
    redeemed: map<InvitationId, string>, joinedBy: map<UserId, InvitationId>,
    delivered: multiset<InvitationId>, failed: multiset<InvitationId>)

  datatype Step =
    | IssueStep(i: InvitationId, request: Request, token: string, now: Time, expiresAt: Time)
    | ResendStep(i: InvitationId, token: string, now: Time, expiresAt: Time)
    | RevokeStep(i: InvitationId, now: Time)
    | AcceptStep(token: string, passwordOk: bool, user: UserId, now: Time)
    | DeliveredStep(i: InvitationId, now: Time)
    | FailedStep(i: InvitationId, now: Time)
    | RegisterStep(user: UserId, email: string)   // an account created some other way

  const START :=
    World(InvitationDb(map[], map[], map[]), multiset{}, map[], map[], map[], map[], multiset{}, multiset{})

  // What the random source and the mail transport guarantee: tokens are new, only started deliveries end.
  predicate Possible(w: World, step: Step) {
    match step
    case IssueStep(_, _, token, _, _) => token !in w.issuedFor
    case ResendStep(_, token, _, _) => token !in w.issuedFor
    case DeliveredStep(i, _) => i in w.inFlight
    case FailedStep(i, _) => i in w.inFlight
    case RegisterStep(user, email) => user !in w.db.users && user !in w.db.members && !EmailInUse(w.db, email)
    case _ => true
  }

  function Started(w: World, effect: Effect, i: InvitationId, token: string): World {
    if effect.outcome.Sending? then
      w.(db := effect.db, inFlight := w.inFlight + multiset{i},
         issuedFor := w.issuedFor[token := i], newest := w.newest[i := token])
    else w.(db := effect.db)
  }

  function Joined(w: World, effect: Effect, token: string): World {
    var found := WithDigest(w.db.rows, DigestOf(token));
    if effect.outcome.AcceptedAs? && found.Some? then
      w.(db := effect.db, redeemed := w.redeemed[found.value := token],
         joinedBy := w.joinedBy[effect.outcome.user := found.value])
    else w.(db := effect.db)
  }

  function Apply(w: World, step: Step): World {
    match step
    case IssueStep(i, request, token, now, expiresAt) =>
      Started(w, Issue(w.db, i, request, token, now, expiresAt), i, token)
    case ResendStep(i, token, now, expiresAt) => Started(w, Resend(w.db, i, token, now, expiresAt), i, token)
    case RevokeStep(i, now) => w.(db := Revoke(w.db, i, now).db)
    case AcceptStep(token, passwordOk, user, now) => Joined(w, Accept(w.db, token, passwordOk, user, now), token)
    case DeliveredStep(i, now) =>
      w.(db := Delivered(w.db, i, now), inFlight := w.inFlight - multiset{i}, delivered := w.delivered + multiset{i})
    case FailedStep(i, now) =>
      w.(db := DeliveryFailed(w.db, i, now), inFlight := w.inFlight - multiset{i}, failed := w.failed + multiset{i})
    case RegisterStep(user, email) => w.(db := w.db.(users := w.db.users[user := email]))
  }

  predicate PossibleRun(w: World, steps: seq<Step>)
    decreases |steps|
  {
    steps != [] ==> Possible(w, steps[0]) && PossibleRun(Apply(w, steps[0]), steps[1..])
  }

  function Run(w: World, steps: seq<Step>): World
    decreases |steps|
  {
    if steps == [] then w else Run(Apply(w, steps[0]), steps[1..])
  }

  // ---- What every interleaving keeps ----

  ghost predicate RowsOk(rows: Rows) {
    forall i | i in rows :: RowOk(rows[i])
  }

  predicate SameAddress(a: Invitation, b: Invitation) {
    a.tenant == b.tenant && a.email == b.email
  }

  ghost predicate OnePendingPerEmail(rows: Rows) {
    forall i, j | i in rows && j in rows && rows[i].state.Pending? && rows[j].state.Pending?
                  && SameAddress(rows[i], rows[j]) :: i == j
  }

  // A pending row holds the digest of the newest token issued for it, and every newest token is its own row's.
  ghost predicate TokensOk(rows: Rows, issuedFor: map<string, InvitationId>, newest: map<InvitationId, string>) {
    && newest.Keys == rows.Keys
    && (forall i | i in newest :: newest[i] in issuedFor && issuedFor[newest[i]] == i)
    && (forall i | i in rows && rows[i].state.Pending? :: rows[i].digest == DigestOf(newest[i]))
  }

  // The redeemed tokens are the newest tokens of exactly the accepted rows.
  ghost predicate RedemptionsOk(rows: Rows, newest: map<InvitationId, string>, redeemed: map<InvitationId, string>) {
    && (forall i :: i in redeemed <==> i in rows && rows[i].state.Accepted?)
    && (forall i | i in redeemed :: i in newest && redeemed[i] == newest[i])
  }

  // The member joined through an accepted row that names it, whose role, scope and address it has.
  predicate JoinedByRow(db: InvitationDb, u: UserId, i: InvitationId) {
    && i in db.rows && db.rows[i].state.Accepted? && db.rows[i].acceptedBy == Some(u)
    && u in db.members && db.members[u] == MemberFrom(db.rows[i])
    && u in db.users && db.users[u] == db.rows[i].email
  }

  predicate NamesItsMember(row: Invitation, joinedBy: map<UserId, InvitationId>, i: InvitationId) {
    row.acceptedBy.Some? && row.acceptedBy.value in joinedBy && joinedBy[row.acceptedBy.value] == i
  }

  // The memberships acceptance created are those of the accepted rows, one for one.
  ghost predicate MembersOk(db: InvitationDb, joinedBy: map<UserId, InvitationId>) {
    && joinedBy.Keys == db.members.Keys
    && (forall u | u in joinedBy :: JoinedByRow(db, u, joinedBy[u]))
    && (forall i | i in db.rows && db.rows[i].state.Accepted? :: NamesItsMember(db.rows[i], joinedBy, i))
  }

  ghost predicate OneUserPerEmail(users: map<UserId, string>) {
    forall u, v | u in users && v in users && users[u] == users[v] :: u == v
  }

  // Every attempted delivery is under way, has succeeded, or has failed.
  ghost predicate DeliveriesOk(
    rows: Rows, inFlight: multiset<InvitationId>, delivered: multiset<InvitationId>, failed: multiset<InvitationId>)
  {
    && (forall i | i in rows ::
          && rows[i].deliveryAttempts == inFlight[i] + delivered[i] + failed[i]
          && rows[i].sendCount == delivered[i])
    && (forall i | i !in rows :: inFlight[i] == 0 && delivered[i] == 0 && failed[i] == 0)
  }

  ghost predicate Invariant(w: World) {
    && RowsOk(w.db.rows)
    && OnePendingPerEmail(w.db.rows)
    && TokensOk(w.db.rows, w.issuedFor, w.newest)
    && RedemptionsOk(w.db.rows, w.newest, w.redeemed)
    && MembersOk(w.db, w.joinedBy)
    && OneUserPerEmail(w.db.users)
    && DeliveriesOk(w.db.rows, w.inFlight, w.delivered, w.failed)
  }

  // ---- One row saved, one property at a time ----

  lemma SaveKeepsRows(rows: Rows, i: InvitationId, row: Invitation)
    requires RowsOk(rows) && RowOk(row)
    ensures RowsOk(rows[i := row])
  {
  }

  lemma SaveKeepsOnePending(rows: Rows, i: InvitationId, row: Invitation)
    requires OnePendingPerEmail(rows)
    requires row.state.Pending? ==>
               forall k | k in rows && k != i && rows[k].state.Pending? :: !SameAddress(rows[k], row)
    ensures OnePendingPerEmail(rows[i := row])
  {
  }

  lemma SaveKeepsTokens(
    rows: Rows, issuedFor: map<string, InvitationId>, newest: map<InvitationId, string>, i: InvitationId, row: Invitation)
    requires TokensOk(rows, issuedFor, newest) && i in rows
    requires row.state.Pending? ==> row.digest == DigestOf(newest[i])
    ensures TokensOk(rows[i := row], issuedFor, newest)
  {
  }

  lemma NewTokenKeepsTokens(
    rows: Rows, issuedFor: map<string, InvitationId>, newest: map<InvitationId, string>, i: InvitationId,
    row: Invitation, token: string)
    requires TokensOk(rows, issuedFor, newest) && token !in issuedFor && row.digest == DigestOf(token)
    ensures TokensOk(rows[i := row], issuedFor[token := i], newest[i := token])
  {
  }

  lemma SaveKeepsRedemptions(
    rows: Rows, newest: map<InvitationId, string>, redeemed: map<InvitationId, string>, i: InvitationId, row: Invitation,
    token: string)
    requires RedemptionsOk(rows, newest, redeemed) && (row.state.Accepted? <==> i in redeemed)
    ensures RedemptionsOk(rows[i := row], newest, redeemed)
    ensures !row.state.Accepted? ==> RedemptionsOk(rows[i := row], newest[i := token], redeemed)
  {
  }

  lemma SaveKeepsMembers(
    db: InvitationDb, joinedBy: map<UserId, InvitationId>, i: InvitationId, row: Invitation)
    requires MembersOk(db, joinedBy)
    requires i !in db.rows ==> !row.state.Accepted?
    requires i in db.rows ==>
               && (row.state.Accepted? <==> db.rows[i].state.Accepted?) && row.acceptedBy == db.rows[i].acceptedBy
               && MemberFrom(row) == MemberFrom(db.rows[i]) && row.email == db.rows[i].email
    ensures MembersOk(db.(rows := db.rows[i := row]), joinedBy)
  {
  }

  lemma SaveKeepsDeliveries(
    rows: Rows, inFlight: multiset<InvitationId>, delivered: multiset<InvitationId>, failed: multiset<InvitationId>,
    i: InvitationId, row: Invitation)
    requires DeliveriesOk(rows, inFlight, delivered, failed) && i in rows
    requires row.deliveryAttempts == rows[i].deliveryAttempts && row.sendCount == rows[i].sendCount
    ensures DeliveriesOk(rows[i := row], inFlight, delivered, failed)
  {
  }

  // A delivery that starts joins those under way.
  lemma StartingKeepsDeliveries(
    rows: Rows, inFlight: multiset<InvitationId>, delivered: multiset<InvitationId>, failed: multiset<InvitationId>,
    i: InvitationId, row: Invitation)
    requires DeliveriesOk(rows, inFlight, delivered, failed)
    requires row.deliveryAttempts == (if i in rows then rows[i].deliveryAttempts else 0) + 1
    requires row.sendCount == if i in rows then rows[i].sendCount else 0
    ensures DeliveriesOk(rows[i := row], inFlight + multiset{i}, delivered, failed)
  {
    forall k | k in rows[i := row]
      ensures rows[i := row][k].deliveryAttempts == (inFlight + multiset{i})[k] + delivered[k] + failed[k]
      ensures rows[i := row][k].sendCount == delivered[k] {
      assert (inFlight + multiset{i})[k] == inFlight[k] + if k == i then 1 else 0;
    }
  }

  // A delivery that ends moves from the deliveries under way to those that succeeded or failed.
  lemma SuccessKeepsDeliveries(
    rows: Rows, inFlight: multiset<InvitationId>, delivered: multiset<InvitationId>, failed: multiset<InvitationId>,
    i: InvitationId, row: Invitation)
    requires DeliveriesOk(rows, inFlight, delivered, failed) && i in inFlight && i in rows
    requires row.deliveryAttempts == rows[i].deliveryAttempts && row.sendCount == rows[i].sendCount + 1
    ensures DeliveriesOk(rows[i := row], inFlight - multiset{i}, delivered + multiset{i}, failed)
  {
    EndedCounts(inFlight, delivered, i);
  }

  lemma FailureKeepsDeliveries(
    rows: Rows, inFlight: multiset<InvitationId>, delivered: multiset<InvitationId>, failed: multiset<InvitationId>,
    i: InvitationId, row: Invitation)
    requires DeliveriesOk(rows, inFlight, delivered, failed) && i in inFlight && i in rows
    requires row.deliveryAttempts == rows[i].deliveryAttempts && row.sendCount == rows[i].sendCount
    ensures DeliveriesOk(rows[i := row], inFlight - multiset{i}, delivered, failed + multiset{i})
  {
    EndedCounts(inFlight, failed, i);
  }

  lemma EndedCounts(inFlight: multiset<InvitationId>, ended: multiset<InvitationId>, i: InvitationId)
    requires i in inFlight
    ensures forall k :: (inFlight - multiset{i})[k] == inFlight[k] - if k == i then 1 else 0
    ensures forall k :: (ended + multiset{i})[k] == ended[k] + if k == i then 1 else 0
  {
  }

  lemma StillAlone(rows: Rows, i: InvitationId, row: Invitation)
    requires OnePendingPerEmail(rows) && i in rows && SameAddress(rows[i], row)
    requires row.state.Pending? ==> rows[i].state.Pending?
    ensures OnePendingPerEmail(rows[i := row])
  {
  }

  // ---- Every step ----

  function WithRow(w: World, i: InvitationId, row: Invitation): World {
    w.(db := w.db.(rows := w.db.rows[i := row]))
  }

  // A row replaced by one with the same identity that is pending only with the digest it had.
  predicate Settles(before: Invitation, after: Invitation) {
    && RowOk(after) && SameAddress(before, after) && MemberFrom(after) == MemberFrom(before)
    && (after.state.Pending? ==> before.state.Pending? && after.digest == before.digest)
    && (after.state.Accepted? <==> before.state.Accepted?) && after.acceptedBy == before.acceptedBy
    && after.deliveryAttempts == before.deliveryAttempts && after.sendCount == before.sendCount
  }

  lemma SettlingKeepsInvariant(w: World, i: InvitationId, row: Invitation)
    requires Invariant(w) && i in w.db.rows && Settles(w.db.rows[i], row)
    ensures Invariant(WithRow(w, i, row))
  {
    hide RowsOk, OnePendingPerEmail, MembersOk, DeliveriesOk, OneUserPerEmail, RowOk;
    SaveKeepsRows(w.db.rows, i, row);
    StillAlone(w.db.rows, i, row);
    SaveKeepsTokens(w.db.rows, w.issuedFor, w.newest, i, row);
    SaveKeepsRedemptions(w.db.rows, w.newest, w.redeemed, i, row, "");
    SaveKeepsMembers(w.db, w.joinedBy, i, row);
    SaveKeepsDeliveries(w.db.rows, w.inFlight, w.delivered, w.failed, i, row);
  }

  // A row that starts a delivery: a new one, or a pending one given a new token.
  function WithToken(w: World, i: InvitationId, row: Invitation, token: string): World {
    w.(db := w.db.(rows := w.db.rows[i := row]), inFlight := w.inFlight + multiset{i},
       issuedFor := w.issuedFor[token := i], newest := w.newest[i := token])
  }

  lemma NewTokenKeepsInvariant(w: World, i: InvitationId, row: Invitation, token: string)
    requires Invariant(w) && token !in w.issuedFor && RowOk(row)
    requires row.state.Pending? && row.digest == DigestOf(token)
    requires row.deliveryAttempts == (if i in w.db.rows then w.db.rows[i].deliveryAttempts else 0) + 1
    requires row.sendCount == (if i in w.db.rows then w.db.rows[i].sendCount else 0)
    requires i in w.db.rows ==>
               && w.db.rows[i].state.Pending? && SameAddress(w.db.rows[i], row)
               && MemberFrom(row) == MemberFrom(w.db.rows[i]) && row.acceptedBy == w.db.rows[i].acceptedBy
    requires i !in w.db.rows ==>
               forall k | k in w.db.rows && w.db.rows[k].state.Pending? :: !SameAddress(w.db.rows[k], row)
    ensures Invariant(WithToken(w, i, row, token))
  {
    hide RowsOk, OnePendingPerEmail, TokensOk, MembersOk, DeliveriesOk, OneUserPerEmail, RowOk;
    SaveKeepsRows(w.db.rows, i, row);
    if i in w.db.rows {
      StillAlone(w.db.rows, i, row);
    } else {
      SaveKeepsOnePending(w.db.rows, i, row);
    }
    NewTokenKeepsTokens(w.db.rows, w.issuedFor, w.newest, i, row, token);
    SaveKeepsRedemptions(w.db.rows, w.newest, w.redeemed, i, row, token);
    SaveKeepsMembers(w.db, w.joinedBy, i, row);
    StartingKeepsDeliveries(w.db.rows, w.inFlight, w.delivered, w.failed, i, row);
  }

  lemma PendingForFinds(rows: Rows, tenant: TenantId, email: string, k: InvitationId)
    requires k in rows && rows[k].state.Pending? && rows[k].tenant == tenant && rows[k].email == email
    requires OnePendingPerEmail(rows)
    ensures PendingFor(rows, tenant, email) == Some(k)
  {
    var found := set i | i in rows && rows[i].tenant == tenant && rows[i].email == email && rows[i].state.Pending?;
    assert k in found;
    assert First(found).Some? && SameAddress(rows[First(found).value], rows[k]);
  }

  lemma IssueKeepsInvariant(w: World, i: InvitationId, request: Request, token: string, now: Time, expiresAt: Time)
    requires Invariant(w) && token !in w.issuedFor
    ensures Invariant(Started(w, Issue(w.db, i, request, token, now, expiresAt), i, token))
  {
    hide OnePendingPerEmail, TokensOk, RedemptionsOk, MembersOk, DeliveriesOk, OneUserPerEmail;
    var effect := Issue(w.db, i, request, token, now, expiresAt);
    if effect.outcome.Sending? {
      var existing := PendingFor(w.db.rows, request.tenant, request.email);
      var row := NewRow(request, token, expiresAt);
      forall k | k in w.db.rows && w.db.rows[k].state.Pending? && SameAddress(w.db.rows[k], row)
        ensures existing == Some(k) {
        PendingForFinds(w.db.rows, request.tenant, request.email, k);
      }
      if existing.Some? {
        ClearThenIssue(w, existing.value, i, row, token);
      } else {
        NewTokenKeepsInvariant(w, i, row, token);
      }
    }
  }

  lemma ClearingFreesAddress(w: World, stale: InvitationId, row: Invitation)
    requires Invariant(w) && stale in w.db.rows && w.db.rows[stale].state.Pending?
    requires forall k | k in w.db.rows && w.db.rows[k].state.Pending? && SameAddress(w.db.rows[k], row) :: k == stale
    ensures var cleared := WithRow(w, stale, MarkExpired(w.db.rows[stale]));
            && Invariant(cleared)
            && forall k | k in cleared.db.rows && cleared.db.rows[k].state.Pending? ::
                 !SameAddress(cleared.db.rows[k], row)
  {
    hide Invariant, RowOk, Settles;
    ExpiringSettles(w, stale);
    SettlingKeepsInvariant(w, stale, MarkExpired(w.db.rows[stale]));
  }

  lemma ClearThenIssue(w: World, stale: InvitationId, i: InvitationId, row: Invitation, token: string)
    requires Invariant(w) && token !in w.issuedFor && RowOk(row) && stale in w.db.rows && i !in w.db.rows
    requires row.state.Pending? && row.digest == DigestOf(token) && row.deliveryAttempts == 1 && row.sendCount == 0
    requires w.db.rows[stale].state.Pending?
    requires forall k | k in w.db.rows && w.db.rows[k].state.Pending? && SameAddress(w.db.rows[k], row) :: k == stale
    ensures Invariant(WithToken(WithRow(w, stale, MarkExpired(w.db.rows[stale])), i, row, token))
  {
    hide Invariant, RowOk, SameAddress;
    ClearingFreesAddress(w, stale, row);
    NewTokenKeepsInvariant(WithRow(w, stale, MarkExpired(w.db.rows[stale])), i, row, token);
  }

  lemma ResendKeepsInvariant(w: World, i: InvitationId, token: string, now: Time, expiresAt: Time)
    requires Invariant(w) && token !in w.issuedFor
    ensures Invariant(Started(w, Resend(w.db, i, token, now, expiresAt), i, token))
  {
    if Open(w.db, i, now) {
      assert RowOk(w.db.rows[i]);
      hide Invariant;
      NewTokenKeepsInvariant(w, i, Resend(w.db, i, token, now, expiresAt).db.rows[i], token);
    }
  }

  lemma RevokeKeepsInvariant(w: World, i: InvitationId, now: Time)
    requires Invariant(w)
    ensures Invariant(w.(db := Revoke(w.db, i, now).db))
  {
    if Open(w.db, i, now) {
      assert RowOk(w.db.rows[i]);
      hide Invariant;
      SettlingKeepsInvariant(w, i, Revoke(w.db, i, now).db.rows[i]);
    }
  }

  function Acceptance(w: World, i: InvitationId, token: string, user: UserId, now: Time): World
    requires i in w.db.rows
  {
    var row := w.db.rows[i];
    w.(db := InvitationDb(w.db.rows[i := AcceptRow(row, user, now)], w.db.users[user := row.email],
                          w.db.members[user := MemberFrom(row)]),
       redeemed := w.redeemed[i := token], joinedBy := w.joinedBy[user := i])
  }

  lemma AcceptanceKeepsMembers(w: World, i: InvitationId, token: string, user: UserId, now: Time)
    requires MembersOk(w.db, w.joinedBy) && i in w.db.rows && !w.db.rows[i].state.Accepted?
    requires user !in w.db.users && user !in w.db.members
    ensures MembersOk(Acceptance(w, i, token, user, now).db, Acceptance(w, i, token, user, now).joinedBy)
  {
    var after := Acceptance(w, i, token, user, now);
    forall u | u in after.joinedBy ensures JoinedByRow(after.db, u, after.joinedBy[u]) {
      if u != user {
        assert JoinedByRow(w.db, u, w.joinedBy[u]);
      }
    }
    forall k | k in after.db.rows && after.db.rows[k].state.Accepted?
      ensures NamesItsMember(after.db.rows[k], after.joinedBy, k) {
      if k != i {
        assert NamesItsMember(w.db.rows[k], w.joinedBy, k);
        assert JoinedByRow(w.db, w.db.rows[k].acceptedBy.value, k);
      }
    }
  }

  lemma AcceptanceKeepsRedemptions(
    rows: Rows, newest: map<InvitationId, string>, redeemed: map<InvitationId, string>, i: InvitationId, row: Invitation)
    requires RedemptionsOk(rows, newest, redeemed) && i in newest && row.state.Accepted?
    ensures RedemptionsOk(rows[i := row], newest, redeemed[i := newest[i]])
  {
  }

  lemma AcceptingIsOk(w: World, i: InvitationId, token: string, user: UserId, now: Time)
    requires Invariant(w) && i in w.db.rows && w.db.rows[i].state.Pending? && w.db.rows[i].digest == DigestOf(token)
    ensures RowOk(AcceptRow(w.db.rows[i], user, now))
    ensures i in w.newest && w.newest[i] == token
  {
    assert RowOk(w.db.rows[i]);
  }

  lemma NewUserKeepsEmails(db: InvitationDb, user: UserId, email: string)
    requires OneUserPerEmail(db.users) && !EmailInUse(db, email)
    ensures OneUserPerEmail(db.users[user := email])
  {
  }

  lemma AcceptanceKeepsInvariant(w: World, i: InvitationId, token: string, user: UserId, now: Time)
    requires Invariant(w) && i in w.db.rows && w.db.rows[i].state.Pending? && w.db.rows[i].digest == DigestOf(token)
    requires !EmailInUse(w.db, w.db.rows[i].email) && user !in w.db.users && user !in w.db.members
    ensures Invariant(Acceptance(w, i, token, user, now))
  {
    hide RowsOk, OnePendingPerEmail, TokensOk, MembersOk, DeliveriesOk, RowOk, RedemptionsOk, OneUserPerEmail, EmailInUse;
    var row := AcceptRow(w.db.rows[i], user, now);
    AcceptingIsOk(w, i, token, user, now);
    SaveKeepsRows(w.db.rows, i, row);
    SaveKeepsOnePending(w.db.rows, i, row);
    SaveKeepsTokens(w.db.rows, w.issuedFor, w.newest, i, row);
    AcceptanceKeepsRedemptions(w.db.rows, w.newest, w.redeemed, i, row);
    AcceptanceKeepsMembers(w, i, token, user, now);
    NewUserKeepsEmails(w.db, user, w.db.rows[i].email);
    SaveKeepsDeliveries(w.db.rows, w.inFlight, w.delivered, w.failed, i, row);
  }

  lemma AcceptKeepsInvariant(w: World, token: string, passwordOk: bool, user: UserId, now: Time)
    requires Invariant(w)
    ensures Invariant(Joined(w, Accept(w.db, token, passwordOk, user, now), token))
  {
    hide Invariant, RowOk, Settles, TokenShape, EmailInUse, MemberFrom;
    var effect := Accept(w.db, token, passwordOk, user, now);
    var found := WithDigest(w.db.rows, DigestOf(token));
    if effect.outcome.AcceptedAs? {
      AcceptanceKeepsInvariant(w, found.value, token, user, now);
    } else if effect.db != w.db {
      ExpiringSettles(w, found.value);
      SettlingKeepsInvariant(w, found.value, MarkExpired(w.db.rows[found.value]));
    }
  }

  lemma ExpiringSettles(w: World, i: InvitationId)
    requires Invariant(w) && i in w.db.rows && w.db.rows[i].state.Pending?
    ensures Settles(w.db.rows[i], MarkExpired(w.db.rows[i]))
  {
    assert RowOk(w.db.rows[i]);
  }

  // The late record of a delivery touches only its own counters and times.
  predicate SameLifecycle(before: Invitation, after: Invitation) {
    after.(lastSentAt := None, lastDeliveryFailedAt := None, deliveryAttempts := 0, sendCount := 0) ==
    before.(lastSentAt := None, lastDeliveryFailedAt := None, deliveryAttempts := 0, sendCount := 0)
  }

  lemma RecordingIsOk(w: World, i: InvitationId, row: Invitation)
    requires Invariant(w) && i in w.db.rows && SameLifecycle(w.db.rows[i], row)
    ensures RowOk(row)
  {
    assert RowOk(w.db.rows[i]);
  }

  // A delivery record brought up to date keeps everything but the counts.
  lemma RecordingKeepsRows(w: World, i: InvitationId, row: Invitation)
    requires Invariant(w) && i in w.db.rows && SameLifecycle(w.db.rows[i], row)
    requires row.deliveryAttempts == w.db.rows[i].deliveryAttempts
    ensures var rows := w.db.rows[i := row];
            && RowsOk(rows) && OnePendingPerEmail(rows) && TokensOk(rows, w.issuedFor, w.newest)
            && RedemptionsOk(rows, w.newest, w.redeemed) && MembersOk(w.db.(rows := rows), w.joinedBy)
            && OneUserPerEmail(w.db.users)
  {
    RecordingIsOk(w, i, row);
    hide RowsOk, OnePendingPerEmail, TokensOk, MembersOk, RowOk, OneUserPerEmail, DeliveriesOk;
    SaveKeepsRows(w.db.rows, i, row);
    StillAlone(w.db.rows, i, row);
    NewestStays(w, i, row);
    SaveKeepsRedemptions(w.db.rows, w.newest, w.redeemed, i, row, "");
    SaveKeepsMembers(w.db, w.joinedBy, i, row);
  }

  lemma NewestStays(w: World, i: InvitationId, row: Invitation)
    requires Invariant(w) && i in w.db.rows && row.state == w.db.rows[i].state && row.digest == w.db.rows[i].digest
    ensures TokensOk(w.db.rows[i := row], w.issuedFor, w.newest)
  {
    SaveKeepsTokens(w.db.rows, w.issuedFor, w.newest, i, row);
  }

  lemma DeliveryKeepsInvariant(w: World, i: InvitationId, now: Time)
    requires Invariant(w) && i in w.inFlight
    ensures Invariant(Apply(w, DeliveredStep(i, now)))
  {
    hide RowsOk, OnePendingPerEmail, TokensOk, RedemptionsOk, MembersOk, OneUserPerEmail;
    assert i in w.db.rows;
    var row := Delivered(w.db, i, now).rows[i];
    SuccessKeepsDeliveries(w.db.rows, w.inFlight, w.delivered, w.failed, i, row);
    hide DeliveriesOk;
    RecordingKeepsRows(w, i, row);
  }

  lemma FailureKeepsInvariant(w: World, i: InvitationId, now: Time)
    requires Invariant(w) && i in w.inFlight
    ensures Invariant(Apply(w, FailedStep(i, now)))
  {
    hide RowsOk, OnePendingPerEmail, TokensOk, RedemptionsOk, MembersOk, OneUserPerEmail;
    assert i in w.db.rows;
    var row := DeliveryFailed(w.db, i, now).rows[i];
    FailureKeepsDeliveries(w.db.rows, w.inFlight, w.delivered, w.failed, i, row);
    hide DeliveriesOk;
    RecordingKeepsRows(w, i, row);
  }

  lemma RegisterKeepsInvariant(w: World, user: UserId, email: string)
    requires Invariant(w) && Possible(w, RegisterStep(user, email))
    ensures Invariant(w.(db := w.db.(users := w.db.users[user := email])))
  {
    hide RowsOk, OnePendingPerEmail, RedemptionsOk, TokensOk, DeliveriesOk;
    assert OneUserPerEmail(w.db.users[user := email]);
    assert MembersOk(w.db.(users := w.db.users[user := email]), w.joinedBy);
  }

  lemma ApplyKeepsInvariant(w: World, step: Step)
    requires Invariant(w) && Possible(w, step)
    ensures Invariant(Apply(w, step))
  {
    hide Invariant;
    match step
    case IssueStep(i, request, token, now, expiresAt) => IssueKeepsInvariant(w, i, request, token, now, expiresAt);
    case ResendStep(i, token, now, expiresAt) => ResendKeepsInvariant(w, i, token, now, expiresAt);
    case RevokeStep(i, now) => RevokeKeepsInvariant(w, i, now);
    case AcceptStep(token, passwordOk, user, now) => AcceptKeepsInvariant(w, token, passwordOk, user, now);
    case DeliveredStep(i, now) => DeliveryKeepsInvariant(w, i, now);
    case FailedStep(i, now) => FailureKeepsInvariant(w, i, now);
    case RegisterStep(user, email) => RegisterKeepsInvariant(w, user, email);
  }

  /** Every interleaving keeps the invariant. */
  lemma {:induction false} RunKeepsInvariant(w: World, steps: seq<Step>)
    requires Invariant(w) && PossibleRun(w, steps)
    ensures Invariant(Run(w, steps))
    decreases |steps|
  {
    if steps != [] {
      ApplyKeepsInvariant(w, steps[0]);
      RunKeepsInvariant(Apply(w, steps[0]), steps[1..]);
    }
  }

  lemma StartKeepsInvariant(steps: seq<Step>)
    requires PossibleRun(START, steps)
    ensures Invariant(Run(START, steps))
  {
    RunKeepsInvariant(START, steps);
  }

  // ---- Lifecycle ----

  lemma IssueKeepsFinal(
    db: InvitationDb, k: InvitationId, request: Request, token: string, now: Time, expiresAt: Time, i: InvitationId)
    requires i in db.rows && !db.rows[i].state.Pending?
    ensures i in Issue(db, k, request, token, now, expiresAt).db.rows
    ensures Issue(db, k, request, token, now, expiresAt).db.rows[i] == db.rows[i]
  {
  }

  lemma OthersKeepFinal(
    db: InvitationDb, k: InvitationId, token: string, now: Time, expiresAt: Time, passwordOk: bool, user: UserId,
    i: InvitationId)
    requires i in db.rows && !db.rows[i].state.Pending?
    ensures i in Resend(db, k, token, now, expiresAt).db.rows
    ensures Resend(db, k, token, now, expiresAt).db.rows[i] == db.rows[i]
    ensures i in Revoke(db, k, now).db.rows && Revoke(db, k, now).db.rows[i] == db.rows[i]
    ensures i in Accept(db, token, passwordOk, user, now).db.rows
    ensures Accept(db, token, passwordOk, user, now).db.rows[i] == db.rows[i]
  {
  }

  /** No step ever takes a row out of a final state, nor changes anything but a delivery record of it. */
  lemma FinalStatesAreKept(w: World, step: Step, i: InvitationId)
    requires i in w.db.rows && !w.db.rows[i].state.Pending?
    ensures i in Apply(w, step).db.rows && SameLifecycle(w.db.rows[i], Apply(w, step).db.rows[i])
  {
    hide Issue, Resend, Revoke, Accept, Delivered, DeliveryFailed, WithDigest;
    match step
    case IssueStep(k, request, token, now, expiresAt) => IssueKeepsFinal(w.db, k, request, token, now, expiresAt, i);
    case ResendStep(k, token, now, expiresAt) => OthersKeepFinal(w.db, k, token, now, expiresAt, true, 0, i);
    case RevokeStep(k, now) => OthersKeepFinal(w.db, k, "", now, now, true, 0, i);
    case AcceptStep(token, passwordOk, user, now) => OthersKeepFinal(w.db, 0, token, now, now, passwordOk, user, i);
    case DeliveredStep(k, now) => LateDeliveryIsInert(w, k, now, i);
    case FailedStep(k, now) => LateDeliveryIsInert(w, k, now, i);
    case RegisterStep(_, _) =>
  }

  lemma {:induction false} RunKeepsFinalStates(w: World, steps: seq<Step>, i: InvitationId)
    requires i in w.db.rows && !w.db.rows[i].state.Pending?
    ensures i in Run(w, steps).db.rows && SameLifecycle(w.db.rows[i], Run(w, steps).db.rows[i])
    decreases |steps|
  {
    if steps != [] {
      FinalStatesAreKept(w, steps[0], i);
      hide Apply;
      RunKeepsFinalStates(Apply(w, steps[0]), steps[1..], i);
    }
  }

  /** The record of a finished delivery, however late, never touches state, digest or expiry. */
  lemma LateDeliveryIsInert(w: World, i: InvitationId, now: Time, k: InvitationId)
    requires k in w.db.rows
    ensures k in Delivered(w.db, i, now).rows && k in DeliveryFailed(w.db, i, now).rows
    ensures SameLifecycle(w.db.rows[k], Delivered(w.db, i, now).rows[k])
    ensures SameLifecycle(w.db.rows[k], DeliveryFailed(w.db, i, now).rows[k])
    ensures Delivered(w.db, i, now).(rows := w.db.rows) == w.db
    ensures DeliveryFailed(w.db, i, now).(rows := w.db.rows) == w.db
  {
  }

  /** In every reachable state a row has at most as many sends as attempts, and exactly the completed ones. */
  lemma SendsAreCounted(steps: seq<Step>, i: InvitationId)
    requires PossibleRun(START, steps) && i in Run(START, steps).db.rows
    ensures var w := Run(START, steps);
            var row := w.db.rows[i];
            && row.sendCount == w.delivered[i]
            && row.sendCount + w.failed[i] + w.inFlight[i] == row.deliveryAttempts
  {
    StartKeepsInvariant(steps);
  }

  // ---- Redemption ----

  // A token that can still be redeemed: the newest of a pending invitation.
  predicate Live(w: World, token: string) {
    && token in w.issuedFor && w.issuedFor[token] in w.db.rows && w.issuedFor[token] in w.newest
    && w.db.rows[w.issuedFor[token]].state.Pending? && w.newest[w.issuedFor[token]] == token
  }

  lemma DigestFindsNewest(w: World, token: string)
    requires Invariant(w)
    ensures WithDigest(w.db.rows, DigestOf(token)) == if Live(w, token) then Some(w.issuedFor[token]) else None
  {
    var holders := set i | i in w.db.rows && w.db.rows[i].digest == DigestOf(token);
    assert WithDigest(w.db.rows, DigestOf(token)) == First(holders);
    forall i | i in holders ensures Live(w, token) && i == w.issuedFor[token] {
      assert RowOk(w.db.rows[i]);
      assert w.newest[i] == token;
    }
    if Live(w, token) {
      assert w.issuedFor[token] in holders;
    }
  }

  /** A token is redeemed exactly when it is the newest of a pending, unexpired invitation to an unused address. */
  lemma RedeemedExactlyWhen(w: World, token: string, passwordOk: bool, user: UserId, now: Time)
    requires Invariant(w)
    ensures Accept(w.db, token, passwordOk, user, now).outcome.AcceptedAs? <==>
            && TokenShape(token) && Live(w, token)
            && w.db.rows[w.issuedFor[token]].expiresAt > now
            && !EmailInUse(w.db, w.db.rows[w.issuedFor[token]].email)
            && passwordOk && user !in w.db.users
  {
    DigestFindsNewest(w, token);
    assert user in w.db.members ==> user in w.db.users;
  }

  lemma NeverRevives(w: World, step: Step, i: InvitationId)
    requires i in w.db.rows && i in Apply(w, step).db.rows && Apply(w, step).db.rows[i].state.Pending?
    ensures w.db.rows[i].state.Pending?
  {
    if !w.db.rows[i].state.Pending? {
      FinalStatesAreKept(w, step, i);
    }
  }

  lemma IssueAddsOnlyItsRow(
    db: InvitationDb, i: InvitationId, request: Request, token: string, now: Time, expiresAt: Time, k: InvitationId)
    ensures var effect := Issue(db, i, request, token, now, expiresAt);
            k in effect.db.rows ==> k in db.rows || (effect.outcome.Sending? && k == i)
  {
  }

  lemma OthersAddNoRow(
    db: InvitationDb, i: InvitationId, token: string, now: Time, expiresAt: Time, passwordOk: bool, user: UserId,
    k: InvitationId)
    requires k !in db.rows
    ensures k !in Resend(db, i, token, now, expiresAt).db.rows
    ensures k !in Revoke(db, i, now).db.rows
    ensures k !in Accept(db, token, passwordOk, user, now).db.rows
    ensures k !in Delivered(db, i, now).rows
    ensures k !in DeliveryFailed(db, i, now).rows
  {
  }

  lemma RowsComeFromIssue(w: World, step: Step, k: InvitationId)
    requires k !in w.db.rows && k in Apply(w, step).db.rows
    ensures step.IssueStep? && step.i == k && k in Apply(w, step).newest && Apply(w, step).newest[k] == step.token
  {
    hide Issue, Resend, Revoke, Accept, Delivered, DeliveryFailed;
    match step
    case IssueStep(i, request, token, now, expiresAt) => IssueAddsOnlyItsRow(w.db, i, request, token, now, expiresAt, k);
    case ResendStep(i, token, now, expiresAt) => OthersAddNoRow(w.db, i, token, now, expiresAt, true, 0, k);
    case RevokeStep(i, now) => OthersAddNoRow(w.db, i, "", now, now, true, 0, k);
    case AcceptStep(token, passwordOk, user, now) => OthersAddNoRow(w.db, 0, token, now, now, passwordOk, user, k);
    case DeliveredStep(i, now) => OthersAddNoRow(w.db, i, "", now, now, true, 0, k);
    case FailedStep(i, now) => OthersAddNoRow(w.db, i, "", now, now, true, 0, k);
    case RegisterStep(_, _) =>
  }

  // An issued token keeps its invitation, and becomes no invitation's newest again.
  lemma TokensOnlyAdvance(w: World, step: Step, token: string, i: InvitationId)
    requires Possible(w, step) && token in w.issuedFor
    ensures token in Apply(w, step).issuedFor && Apply(w, step).issuedFor[token] == w.issuedFor[token]
    ensures i in Apply(w, step).newest && Apply(w, step).newest[i] == token ==> i in w.newest && w.newest[i] == token
  {
    hide Issue, Resend, Revoke, Accept, Delivered, DeliveryFailed;
  }

  lemma DeadStaysDead(w: World, step: Step, token: string)
    requires Invariant(w) && Possible(w, step) && token in w.issuedFor && !Live(w, token)
    ensures token in Apply(w, step).issuedFor && !Live(Apply(w, step), token)
  {
    var i, next := w.issuedFor[token], Apply(w, step);
    TokensOnlyAdvance(w, step, token, i);
    if Live(next, token) {
      if i in w.db.rows {
        NeverRevives(w, step, i);
      } else {
        RowsComeFromIssue(w, step, i);
      }
    }
  }

  lemma {:induction false} RunKeepsDead(w: World, steps: seq<Step>, token: string)
    requires Invariant(w) && PossibleRun(w, steps) && token in w.issuedFor && !Live(w, token)
    ensures token in Run(w, steps).issuedFor && !Live(Run(w, steps), token)
    decreases |steps|
  {
    if steps != [] {
      DeadStaysDead(w, steps[0], token);
      ApplyKeepsInvariant(w, steps[0]);
      hide Invariant;
      RunKeepsDead(Apply(w, steps[0]), steps[1..], token);
    }
  }

  lemma AcceptanceKillsToken(w: World, token: string, passwordOk: bool, user: UserId, now: Time)
    requires Invariant(w) && Accept(w.db, token, passwordOk, user, now).outcome.AcceptedAs?
    ensures token in w.issuedFor && token in Apply(w, AcceptStep(token, passwordOk, user, now)).issuedFor
    ensures !Live(Apply(w, AcceptStep(token, passwordOk, user, now)), token)
  {
    DigestFindsNewest(w, token);
  }

  /** However the run continues after a token was redeemed, the same token is never redeemed again. */
  lemma RedeemedAtMostOnce(
    before: seq<Step>, between: seq<Step>, token: string, ok: bool, user: UserId, now: Time,
    ok': bool, user': UserId, now': Time)
    requires PossibleRun(START, before)
    requires Accept(Run(START, before).db, token, ok, user, now).outcome.AcceptedAs?
    requires PossibleRun(Apply(Run(START, before), AcceptStep(token, ok, user, now)), between)
    ensures var later := Run(Apply(Run(START, before), AcceptStep(token, ok, user, now)), between);
            !Accept(later.db, token, ok', user', now').outcome.AcceptedAs?
  {
    hide Accept, Invariant, Apply, Run, PossibleRun, Live, Joined, TokenShape, EmailInUse;
    StartKeepsInvariant(before);
    var w := Run(START, before);
    var accepted := Apply(w, AcceptStep(token, ok, user, now));
    AcceptanceKillsToken(w, token, ok, user, now);
    ApplyKeepsInvariant(w, AcceptStep(token, ok, user, now));
    RunKeepsDead(accepted, between, token);
    RunKeepsInvariant(accepted, between);
    RedeemedExactlyWhen(Run(accepted, between), token, ok', user', now');
  }

  /** A resend makes every earlier token of the invitation worthless. */
  lemma ResendSupersedes(w: World, i: InvitationId, token: string, now: Time, expiresAt: Time, earlier: string)
    requires Invariant(w) && token !in w.issuedFor && Open(w.db, i, now)
    requires earlier in w.issuedFor && w.issuedFor[earlier] == i
    ensures !Live(Apply(w, ResendStep(i, token, now, expiresAt)), earlier)
    ensures Live(Apply(w, ResendStep(i, token, now, expiresAt)), token)
  {
  }

  // ---- Memberships ----

  lemma {:induction false} InjectiveImageSize(joinedBy: map<UserId, InvitationId>, accepted: set<InvitationId>)
    requires forall u, v | u in joinedBy && v in joinedBy && joinedBy[u] == joinedBy[v] :: u == v
    requires accepted == set u | u in joinedBy :: joinedBy[u]
    ensures |joinedBy| == |accepted|
    decreases |joinedBy|
  {
    if joinedBy != map[] {
      var u :| u in joinedBy;
      var rest := joinedBy - {u};
      forall i ensures i in accepted - {joinedBy[u]} <==> i in set v | v in rest :: rest[v] {
        if i in accepted - {joinedBy[u]} {
          var v :| v in joinedBy && joinedBy[v] == i;
          assert v in rest && rest[v] == i;
        }
      }
      InjectiveImageSize(rest, accepted - {joinedBy[u]});
      assert joinedBy.Keys == rest.Keys + {u};
      assert |joinedBy| == |rest| + 1;
    } else {
      assert accepted == {};
    }
  }

  function AcceptedRows(rows: Rows): set<InvitationId> {
    set i | i in rows && rows[i].state.Accepted?
  }

  predicate JoinedThrough(db: InvitationDb, u: UserId, i: InvitationId) {
    && u in db.members && i in db.rows
    && db.rows[i].state.Accepted? && db.rows[i].acceptedBy == Some(u) && db.members[u] == MemberFrom(db.rows[i])
  }

  lemma JoinedByIsABijection(db: InvitationDb, joinedBy: map<UserId, InvitationId>)
    requires MembersOk(db, joinedBy)
    ensures |db.members| == |AcceptedRows(db.rows)|
  {
    var accepted := AcceptedRows(db.rows);
    forall i ensures i in accepted <==> i in set u | u in joinedBy :: joinedBy[u] {
      if i in accepted {
        assert db.rows[i].acceptedBy.value in joinedBy;
      }
    }
    InjectiveImageSize(joinedBy, accepted);
    assert |joinedBy.Keys| == |db.members.Keys|;
  }

  /** In every reachable state the memberships acceptance created are those of the accepted rows, one for one. */
  lemma MembershipsAreAcceptedRows(steps: seq<Step>)
    requires PossibleRun(START, steps)
    ensures var db := Run(START, steps).db;
            && |db.members| == |AcceptedRows(db.rows)|
            && (forall u | u in db.members :: exists i :: JoinedThrough(db, u, i))
            && (forall i | i in AcceptedRows(db.rows) :: exists u :: JoinedThrough(db, u, i))
  {
    StartKeepsInvariant(steps);
    var w := Run(START, steps);
    assert MembersOk(w.db, w.joinedBy);
    hide Run, Invariant, MemberFrom;
    JoinedByIsABijection(w.db, w.joinedBy);
    forall u | u in w.db.members ensures exists i :: JoinedThrough(w.db, u, i) {
      assert JoinedThrough(w.db, u, w.joinedBy[u]);
    }
    forall i | i in AcceptedRows(w.db.rows) ensures exists u :: JoinedThrough(w.db, u, i) {
      assert JoinedThrough(w.db, w.db.rows[i].acceptedBy.value, i);
    }
  }

  // ---- Expiry marks and the transactions that raise ----

  /** Resending or revoking an expired pending invitation changes nothing at all; redeeming it marks it expired. */
  lemma OnlyAcceptanceRecordsExpiry(w: World, i: InvitationId, unused: string, now: Time, expiresAt: Time)
    requires Invariant(w) && i in w.db.rows && w.db.rows[i].state.Pending? && w.db.rows[i].expiresAt <= now
    ensures Resend(w.db, i, unused, now, expiresAt) == Effect(w.db, Conflict)
    ensures Revoke(w.db, i, now) == Effect(w.db, Conflict)
    ensures i in w.newest && (TokenShape(w.newest[i]) ==>
              forall ok, user ::
                Accept(w.db, w.newest[i], ok, user, now) ==
                Effect(w.db.(rows := w.db.rows[i := MarkExpired(w.db.rows[i])]), Unavailable))
  {
    DigestFindsNewest(w, w.newest[i]);
  }
}

/** Bearer tokens: their printed form, and the store that issues, rotates, revokes and authenticates them. */
module ApiTokens {
  import opened Wrappers
  import opened Keys
  import opened AccessTables
  import opened Policy

  type TokenId = nat
  type Time = int

  datatype TokenKind = Personal | Service

  // An ideal password hash: it verifies exactly the secret it was made from.
  datatype SecretHash = SecretHash(salt: nat, secret: string)

  predicate CheckPassword(secret: string, hash: SecretHash) {
    hash.secret == secret
  }

  datatype TokenRecord = TokenRecord(
    kind: TokenKind, subject: UserId, credential: BearerToken, prefix: string, hash: SecretHash,
    generation: nat, expiresAt: Time, lastUsedAt: Option<Time>, revokedAt: Option<Time>, lockedAt: Option<Time>)

  // ---- The printed form ----

  predicate HexDigit(c: char) {
    '0' <= c <= '9' || 'a' <= c <= 'f'
  }

  predicate SecretCharacter(c: char) {
    'A' <= c <= 'Z' || 'a' <= c <= 'z' || '0' <= c <= '9' || c == '_' || c == '-'
  }

  predicate ValidPrefix(s: string) {
    |s| == 12 && forall k | 0 <= k < |s| :: HexDigit(s[k])
  }

  predicate ValidSecret(s: string) {
    |s| == 43 && forall k | 0 <= k < |s| :: SecretCharacter(s[k])
  }

  predicate ValidMarker(s: string) {
    s == "tdp" || s == "tds"
  }

  function MarkerOf(kind: TokenKind): string {
    if kind.Personal? then "tdp" else "tds"
  }

  function Print(marker: string, prefix: string, secret: string): string {
    marker + "_" + prefix + "_" + secret
  }

  datatype Parsed = Parsed(marker: string, prefix: string, secret: string)

  // The groups the pattern captures; the fields have fixed lengths, so only one split can match.
  function Parse(value: string): Option<Parsed> {
    if |value| != 60 || value[3] != '_' || value[16] != '_' then None
    else if ValidMarker(value[..3]) && ValidPrefix(value[4..16]) && ValidSecret(value[17..]) then
      Some(Parsed(value[..3], value[4..16], value[17..]))
    else None
  }

  /** Parsing recovers exactly what was printed, whatever underscores the secret holds, and accepts nothing else. */
  lemma ParseInvertsPrint(value: string, marker: string, prefix: string, secret: string)
    ensures Parse(value) == Some(Parsed(marker, prefix, secret)) <==>
            && value == Print(marker, prefix, secret)
            && ValidMarker(marker) && ValidPrefix(prefix) && ValidSecret(secret)
  {
    if value == Print(marker, prefix, secret) && ValidMarker(marker) && ValidPrefix(prefix) && ValidSecret(secret) {
      assert value[..3] == marker && value[4..16] == prefix && value[17..] == secret;
      assert value[3] == '_' && value[16] == '_';
    }
    if Parse(value) == Some(Parsed(marker, prefix, secret)) {
      assert value == value[..3] + [value[3]] + value[4..16] + [value[16]] + value[17..];
    }
  }

  // ---- The store ----

  datatype TokenDb = TokenDb(records: map<TokenId, TokenRecord>, active: map<UserId, bool>)

  predicate SubjectActive(db: TokenDb, u: UserId) {
    u in db.active && db.active[u]
  }

  predicate PrefixTaken(db: TokenDb, prefix: string) {
    exists t | t in db.records :: db.records[t].prefix == prefix
  }

  function WithPrefix(db: TokenDb, prefix: string): Option<TokenId> {
    First(set t | t in db.records && db.records[t].prefix == prefix)
  }

  // The material of one issue or rotation, as the random source gave it.
  datatype Material = Material(prefix: string, secret: string, salt: nat)

  function NewRecord(
    kind: TokenKind, subject: UserId, credential: BearerToken, material: Material, now: Time, expiresAt: Time): TokenRecord
  {
    TokenRecord(kind, subject, credential, material.prefix, SecretHash(material.salt, material.secret),
                1, expiresAt, None, None, Some(now))
  }

  function IssueToken(
    db: TokenDb, t: TokenId, kind: TokenKind, subject: UserId, credential: BearerToken, material: Material,
    now: Time, expiresAt: Time): TokenDb
  {
    var active := if kind.Service? then db.active[subject := true] else db.active;
    TokenDb(db.records[t := NewRecord(kind, subject, credential, material, now, expiresAt)], active)
  }

  function RotateToken(db: TokenDb, t: TokenId, material: Material, expiresAt: Time): TokenDb
    requires t in db.records
  {
    var record := db.records[t];
    db.(records := db.records[t := record.(prefix := material.prefix,
                                           hash := SecretHash(material.salt, material.secret),
                                           generation := record.generation + 1,
                                           expiresAt := expiresAt, lastUsedAt := None)])
  }

  predicate Rotatable(db: TokenDb, t: TokenId) {
    t in db.records && db.records[t].revokedAt.None?
  }

  function RevokeToken(db: TokenDb, t: TokenId, now: Time): TokenDb {
    if !Rotatable(db, t) then db
    else
      var record := db.records[t];
      TokenDb(db.records[t := record.(revokedAt := Some(now))],
              if record.kind.Service? then db.active[record.subject := false] else db.active)
  }

  const LAST_USED_INTERVAL := 300

  function Authenticate(db: TokenDb, value: string, now: Time): Option<TokenId> {
    match Parse(value)
    case None => None
    case Some(parsed) =>
      match WithPrefix(db, parsed.prefix)
      case None => None
      case Some(t) =>
        var record := db.records[t];
        if !CheckPassword(parsed.secret, record.hash) || parsed.marker != MarkerOf(record.kind)
           || record.revokedAt.Some? || record.lockedAt.None? || record.expiresAt <= now
           || !SubjectActive(db, record.subject) then None
        else Some(t)
  }

  predicate TouchDue(record: TokenRecord, now: Time) {
    record.lastUsedAt.None? || record.lastUsedAt.value <= now - LAST_USED_INTERVAL
  }

  function Touched(db: TokenDb, found: Option<TokenId>, now: Time): TokenDb {
    if found.Some? && found.value in db.records && TouchDue(db.records[found.value], now) then
      db.(records := db.records[found.value := db.records[found.value].(lastUsedAt := Some(now))])
    else db
  }

  class Store {
    var records: map<TokenId, TokenRecord>
    var active: map<UserId, bool>

    function Tables(): TokenDb
      reads this
    {
      TokenDb(records, active)
    }

    constructor (active: map<UserId, bool>)
      ensures Tables() == TokenDb(map[], active)
    {
      records := map[];
      this.active := active;
    }

    // The record is created unlocked, given its permissions, and locked before the transaction ends.
    method Issue(t: TokenId, kind: TokenKind, subject: UserId, credential: BearerToken, material: Material,
                 now: Time, expiresAt: Time) returns (plaintext: string)
      requires t !in records && !PrefixTaken(Tables(), material.prefix)
      modifies this
      ensures Tables() == IssueToken(old(Tables()), t, kind, subject, credential, material, now, expiresAt)
      ensures plaintext == Print(MarkerOf(kind), material.prefix, material.secret)
    {
      if kind.Service? {
        active := active[subject := true];
      }
      var record := TokenRecord(
        kind, subject, credential.(permissions := {}), material.prefix, SecretHash(material.salt, material.secret),
        1, expiresAt, None, None, None);
      record := record.(credential := credential);
      record := record.(lockedAt := Some(now));
      records := records[t := record];
      plaintext := Print(MarkerOf(kind), material.prefix, material.secret);
    }

    method Rotate(t: TokenId, material: Material, expiresAt: Time) returns (plaintext: Option<string>)
      requires !PrefixTaken(Tables(), material.prefix)
      modifies this`records
      ensures plaintext.Some? <==> Rotatable(old(Tables()), t)
      ensures plaintext.Some? ==> Tables() == RotateToken(old(Tables()), t, material, expiresAt)
      ensures plaintext.Some? ==>
                plaintext.value == Print(MarkerOf(old(records)[t].kind), material.prefix, material.secret)
      ensures plaintext.None? ==> Tables() == old(Tables())
    {
      if t !in records || records[t].revokedAt.Some? {
        return None;
      }
      var record := records[t];
      record := record.(prefix := material.prefix);
      record := record.(hash := SecretHash(material.salt, material.secret));
      record := record.(generation := record.generation + 1);
      record := record.(expiresAt := expiresAt);
      record := record.(lastUsedAt := None);
      records := records[t := record];
      return Some(Print(MarkerOf(record.kind), material.prefix, material.secret));
    }

    method Revoke(t: TokenId, now: Time)
      modifies this
      ensures Tables() == RevokeToken(old(Tables()), t, now)
    {
      if t in records && records[t].revokedAt.None? {
        records := records[t := records[t].(revokedAt := Some(now))];
        if records[t].kind.Service? {
          active := active[records[t].subject := false];
        }
      }
    }

    method AuthenticateBearer(value: string, now: Time) returns (found: Option<TokenId>)
      modifies this`records
      ensures found == Authenticate(old(Tables()), value, now)
      ensures Tables() == Touched(old(Tables()), found, now)
    {
      var matched := Parse(value);
      if matched.None? {
        return None;
      }
      found := WithPrefix(Tables(), matched.value.prefix);
      if found.None? {
        return None;
      }
      var record := records[found.value];
      if !CheckPassword(matched.value.secret, record.hash) || matched.value.marker != MarkerOf(record.kind)
         || record.revokedAt.Some? || record.lockedAt.None? || record.expiresAt <= now
         || !SubjectActive(Tables(), record.subject) {
        return None;
      }
      if record.lastUsedAt.None? || record.lastUsedAt.value <= now - LAST_USED_INTERVAL {
        records := records[found.value := record.(lastUsedAt := Some(now))];
      }
    }
  }

  // ---- Refinement of a map from records to their current plaintext ----

  datatype World = World(db: TokenDb, current: map<TokenId, string>, secrets: set<string>)

  datatype Step =
    | IssueStep(t: TokenId, kind: TokenKind, subject: UserId, credential: BearerToken, material: Material,
                now: Time, expiresAt: Time)
    | RotateStep(t: TokenId, material: Material, expiresAt: Time)
    | RevokeStep(t: TokenId, now: Time)
    | UseStep(value: string, now: Time)
    | SetActiveStep(user: UserId, on: bool)

  predicate MaterialUsable(w: World, material: Material) {
    && ValidPrefix(material.prefix) && ValidSecret(material.secret)
    && !PrefixTaken(w.db, material.prefix) && material.secret !in w.secrets
  }

  // Prefixes are drawn until one is free; secrets never repeat.
  predicate Possible(w: World, step: Step) {
    match step
    case IssueStep(t, kind, subject, _, material, _, _) => t !in w.db.records && MaterialUsable(w, material)
    case RotateStep(_, material, _) => MaterialUsable(w, material)
    case _ => true
  }

  function Apply(w: World, step: Step): World {
    match step
    case IssueStep(t, kind, subject, credential, material, now, expiresAt) =>
      World(IssueToken(w.db, t, kind, subject, credential, material, now, expiresAt),
            w.current[t := Print(MarkerOf(kind), material.prefix, material.secret)], w.secrets + {material.secret})
    case RotateStep(t, material, expiresAt) =>
      if !Rotatable(w.db, t) then w
      else World(RotateToken(w.db, t, material, expiresAt),
                 w.current[t := Print(MarkerOf(w.db.records[t].kind), material.prefix, material.secret)],
                 w.secrets + {material.secret})
    case RevokeStep(t, now) => w.(db := RevokeToken(w.db, t, now))
    case UseStep(value, now) => w.(db := Touched(w.db, Authenticate(w.db, value, now), now))
    case SetActiveStep(user, on) => w.(db := w.db.(active := w.db.active[user := on]))
  }

  predicate PossibleRun(w: World, steps: seq<Step>)
    decreases |steps|
  {
    steps != [] ==> Possible(w, steps[0]) && PossibleRun(Apply(w, steps[0]), steps[1..])
  }

  function Run(w: World, steps: seq<Step>): World
    decreases |steps|
  {
    if steps == [] then w else Run(Apply(w, steps[0]), steps[1..])
  }

  // What the stored record says of its plaintext.
  predicate RecordHolds(record: TokenRecord, plaintext: string) {
    && ValidPrefix(record.prefix) && ValidSecret(record.hash.secret)
    && plaintext == Print(MarkerOf(record.kind), record.prefix, record.hash.secret)
    && record.lockedAt.Some?
  }

  ghost predicate Refines(w: World) {
    && w.current.Keys == w.db.records.Keys
    && (forall t | t in w.db.records :: RecordHolds(w.db.records[t], w.current[t]))
    && (forall t | t in w.db.records :: w.db.records[t].hash.secret in w.secrets)
    && (forall a, b | a in w.db.records && b in w.db.records && w.db.records[a].prefix == w.db.records[b].prefix :: a == b)
    && (forall a, b | a in w.db.records && b in w.db.records
                      && w.db.records[a].hash.secret == w.db.records[b].hash.secret :: a == b)
  }

  lemma SaveRefines(w: World, t: TokenId, record: TokenRecord, active: map<UserId, bool>)
    requires Refines(w) && t in w.db.records
    requires record.kind == w.db.records[t].kind && record.prefix == w.db.records[t].prefix
    requires record.hash == w.db.records[t].hash && record.lockedAt == w.db.records[t].lockedAt
    ensures Refines(w.(db := TokenDb(w.db.records[t := record], active)))
  {
    assert RecordHolds(w.db.records[t], w.current[t]);
  }

  lemma FreshMaterialRefines(
    w: World, t: TokenId, record: TokenRecord, active: map<UserId, bool>, material: Material)
    requires Refines(w) && MaterialUsable(w, material) && record.lockedAt.Some?
    requires record.prefix == material.prefix && record.hash == SecretHash(material.salt, material.secret)
    ensures Refines(World(TokenDb(w.db.records[t := record], active),
                          w.current[t := Print(MarkerOf(record.kind), material.prefix, material.secret)],
                          w.secrets + {material.secret}))
  {
    hide ValidPrefix, ValidSecret, Print, MarkerOf;
  }

  lemma ApplyRefines(w: World, step: Step)
    requires Refines(w) && Possible(w, step)
    ensures Refines(Apply(w, step))
  {
    hide Authenticate;
    match step
    case IssueStep(t, kind, subject, credential, material, now, expiresAt) =>
      var next := Apply(w, step);
      FreshMaterialRefines(w, t, next.db.records[t], next.db.active, material);
    case RotateStep(t, material, expiresAt) =>
      if Rotatable(w.db, t) {
        assert RecordHolds(w.db.records[t], w.current[t]);
        FreshMaterialRefines(w, t, Apply(w, step).db.records[t], w.db.active, material);
      }
    case RevokeStep(t, now) =>
      if Rotatable(w.db, t) {
        SaveRefines(w, t, Apply(w, step).db.records[t], Apply(w, step).db.active);
      }
    case UseStep(value, now) =>
      var found := Authenticate(w.db, value, now);
      if Touched(w.db, found, now) != w.db {
        SaveRefines(w, found.value, Apply(w, step).db.records[found.value], w.db.active);
      }
    case SetActiveStep(user, on) =>
  }

  lemma {:induction false} RunRefines(w: World, steps: seq<Step>)
    requires Refines(w) && PossibleRun(w, steps)
    ensures Refines(Run(w, steps))
    decreases |steps|
  {
    if steps != [] {
      ApplyRefines(w, steps[0]);
      RunRefines(Apply(w, steps[0]), steps[1..]);
    }
  }

  // A record whose plaintext would be honoured now.
  predicate Honoured(db: TokenDb, t: TokenId, now: Time) {
    && t in db.records && db.records[t].lockedAt.Some? && db.records[t].revokedAt.None?
    && db.records[t].expiresAt > now && SubjectActive(db, db.records[t].subject)
  }

  lemma AuthenticatesCurrent(w: World, value: string, now: Time, t: TokenId)
    requires Refines(w)
    ensures Authenticate(w.db, value, now) == Some(t) <==>
            t in w.current && w.current[t] == value && Honoured(w.db, t, now)
  {
    if Authenticate(w.db, value, now) == Some(t) {
      var parsed := Parse(value).value;
      ParseInvertsPrint(value, parsed.marker, parsed.prefix, parsed.secret);
      assert RecordHolds(w.db.records[t], w.current[t]);
    }
    if t in w.current && w.current[t] == value && Honoured(w.db, t, now) {
      var record := w.db.records[t];
      assert RecordHolds(record, value);
      ParseInvertsPrint(value, MarkerOf(record.kind), record.prefix, record.hash.secret);
      var holders := set k | k in w.db.records && w.db.records[k].prefix == record.prefix;
      assert t in holders && WithPrefix(w.db, record.prefix) == First(holders);
    }
  }

  function Start(active: map<UserId, bool>): World {
    World(TokenDb(map[], active), map[], {})
  }

  /** After any run, a string authenticates a record exactly when it is the record's most recently issued plaintext
      and the record is locked, unrevoked, unexpired and has an active subject. */
  lemma StoreRefinesCurrentPlaintexts(
    active: map<UserId, bool>, steps: seq<Step>, value: string, now: Time, t: TokenId)
    requires PossibleRun(Start(active), steps)
    ensures var w := Run(Start(active), steps);
            Authenticate(w.db, value, now) == Some(t) <==>
            t in w.current && w.current[t] == value && Honoured(w.db, t, now)
  {
    RunRefines(Start(active), steps);
    AuthenticatesCurrent(Run(Start(active), steps), value, now, t);
  }

  /** In any state a run reaches, a string authenticates a record exactly when it is the record's printed form and the
      record is unrevoked, unexpired and of an active subject. */
  lemma AuthenticatesExactly(w: World, value: string, now: Time, t: TokenId)
    requires Refines(w)
    ensures Authenticate(w.db, value, now) == Some(t)
       <==> && t in w.db.records
            && var record := w.db.records[t];
               && value == (if record.kind == Personal then "tdp_" else "tds_") + record.prefix + "_" + record.hash.secret
               && record.revokedAt == None && record.expiresAt > now
               && record.subject in w.db.active && w.db.active[record.subject]
  {
    hide Authenticate, Print, MarkerOf, ValidPrefix, ValidSecret;
    AuthenticatesCurrent(w, value, now, t);
    if t in w.db.records {
      var record := w.db.records[t];
      assert RecordHolds(record, w.current[t]);
      PrintsAs(record.kind, record.prefix, record.hash.secret);
    }
  }

  lemma PrintsAs(kind: TokenKind, prefix: string, secret: string)
    ensures Print(MarkerOf(kind), prefix, secret)
         == (if kind == Personal then "tdp_" else "tds_") + prefix + "_" + secret
  {
    assert "tdp" + "_" == "tdp_" && "tds" + "_" == "tds_";
  }

  /** A token just issued for fresh, well-formed material authenticates its record until it expires, if its subject is
      active, as that of a service token is. */
  lemma FreshTokenAuthenticates(w: World, t: TokenId, kind: TokenKind, subject: UserId, credential: BearerToken,
                                material: Material, issued: Time, expiresAt: Time, now: Time)
    requires Refines(w) && t !in w.db.records && ValidPrefix(material.prefix) && ValidSecret(material.secret)
    requires material.secret !in w.secrets && forall k | k in w.db.records :: w.db.records[k].prefix != material.prefix
    ensures var after := Apply(w, IssueStep(t, kind, subject, credential, material, issued, expiresAt));
            var value := (if kind == Personal then "tdp_" else "tds_") + material.prefix + "_" + material.secret;
            Authenticate(after.db, value, now) == Some(t) <==>
              expiresAt > now && (kind == Service || (subject in w.db.active && w.db.active[subject]))
  {
    var step := IssueStep(t, kind, subject, credential, material, issued, expiresAt);
    var value := (if kind == Personal then "tdp_" else "tds_") + material.prefix + "_" + material.secret;
    ApplyRefines(w, step);
    hide Authenticate, Refines, ValidPrefix, ValidSecret;
    AuthenticatesExactly(Apply(w, step), value, now, t);
  }

  // A letter or digit, a hyphen or an underscore, by its code point.
  predicate UrlSafe(point: int) {
    48 <= point <= 57 || 65 <= point <= 90 || 97 <= point <= 122 || point == 45 || point == 95
  }

  /** Only strings of 60 characters are looked up at all: "tdp" or "tds", twelve lower-case hexadecimal digits and 43
      URL-safe characters, with underscores between. */
  lemma ParsesExactly(value: string)
    ensures Parse(value).Some?
       <==> && |value| == 60 && value[..4] in {"tdp_", "tds_"} && value[16] == '_'
            && (forall k | 4 <= k < 16 ::
                  var point := value[k] as int; 48 <= point <= 57 || 97 <= point <= 102)
            && (forall k | 17 <= k < 60 :: UrlSafe(value[k] as int))
  {
    if |value| == 60 {
      MarkerExactly(value);
      PrefixExactly(value[4..16]);
      SecretExactly(value[17..]);
      SliceHolds(value, 4, 16);
      SliceHolds(value, 17, 60);
      assert value[17..] == value[17..60];
      hide ValidPrefix, ValidSecret, ValidMarker;
    }
  }

  lemma MarkerExactly(value: string)
    requires |value| >= 4
    ensures ValidMarker(value[..3]) && value[3] == '_' <==> value[..4] in {"tdp_", "tds_"}
  {
    assert value[..4] == value[..3] + [value[3]];
    assert "tdp_" == "tdp" + ['_'] && "tds_" == "tds" + ['_'];
  }

  lemma PrefixExactly(prefix: string)
    requires |prefix| == 12
    ensures ValidPrefix(prefix) <==>
            forall k | 0 <= k < 12 :: var point := prefix[k] as int; 48 <= point <= 57 || 97 <= point <= 102
  {
  }

  lemma SecretExactly(secret: string)
    requires |secret| == 43
    ensures ValidSecret(secret) <==> forall k | 0 <= k < 43 :: UrlSafe(secret[k] as int)
  {
  }

  lemma SliceHolds(s: string, i: nat, j: nat)
    requires i <= j <= |s|
    ensures forall k | i <= k < j :: s[k] == s[i..j][k - i]
    ensures forall k | 0 <= k < j - i :: s[i..j][k] == s[i + k]
  {
  }

  // ---- What rotation and revocation retire ----

  ghost predicate Retired(w: World, secret: string) {
    secret in w.secrets && forall t | t in w.db.records :: w.db.records[t].hash.secret != secret
  }

  lemma RetiredStays(w: World, step: Step, secret: string)
    requires Possible(w, step) && Retired(w, secret)
    ensures Retired(Apply(w, step), secret)
  {
  }

  lemma {:induction false} RunKeepsRetired(w: World, steps: seq<Step>, secret: string)
    requires PossibleRun(w, steps) && Retired(w, secret)
    ensures Retired(Run(w, steps), secret)
    decreases |steps|
  {
    if steps != [] {
      RetiredStays(w, steps[0], secret);
      RunKeepsRetired(Apply(w, steps[0]), steps[1..], secret);
    }
  }

  lemma RotationRetiresSecret(w: World, t: TokenId, material: Material, expiresAt: Time)
    requires Refines(w) && Possible(w, RotateStep(t, material, expiresAt)) && Rotatable(w.db, t)
    ensures Retired(Apply(w, RotateStep(t, material, expiresAt)), w.db.records[t].hash.secret)
  {
  }

  lemma RetiredDoesNotAuthenticate(w: World, value: string, secret: string, now: Time)
    requires Refines(w) && Retired(w, secret)
    requires Parse(value).Some? && Parse(value).value.secret == secret
    ensures Authenticate(w.db, value, now).None?
  {
  }

  /** Once rotated away, a plaintext authenticates nothing, whatever happens afterwards. */
  lemma RotationRetiresPlaintext(w: World, t: TokenId, material: Material, expiresAt: Time, steps: seq<Step>, now: Time)
    requires Refines(w) && Possible(w, RotateStep(t, material, expiresAt)) && Rotatable(w.db, t)
    requires PossibleRun(Apply(w, RotateStep(t, material, expiresAt)), steps)
    ensures Authenticate(Run(Apply(w, RotateStep(t, material, expiresAt)), steps).db, w.current[t], now).None?
  {
    var record, next := w.db.records[t], Apply(w, RotateStep(t, material, expiresAt));
    assert RecordHolds(record, w.current[t]);
    ParseInvertsPrint(w.current[t], MarkerOf(record.kind), record.prefix, record.hash.secret);
    RotationRetiresSecret(w, t, material, expiresAt);
    ApplyRefines(w, RotateStep(t, material, expiresAt));
    hide Apply, Refines, Parse, Authenticate;
    RunKeepsRetired(next, steps, record.hash.secret);
    RunRefines(next, steps);
    RetiredDoesNotAuthenticate(Run(next, steps), w.current[t], record.hash.secret, now);
  }

  lemma RevokedStays(w: World, step: Step, t: TokenId)
    requires Possible(w, step) && t in w.db.records && w.db.records[t].revokedAt.Some?
    ensures t in Apply(w, step).db.records && Apply(w, step).db.records[t].revokedAt.Some?
  {
  }

  /** A revoked record is never rotated back to life: no string authenticates it again. */
  lemma {:induction false} RevocationIsFinal(w: World, steps: seq<Step>, t: TokenId, value: string, now: Time)
    requires PossibleRun(w, steps) && t in w.db.records && w.db.records[t].revokedAt.Some?
    ensures Authenticate(Run(w, steps).db, value, now) != Some(t)
    decreases |steps|
  {
    if steps != [] {
      RevokedStays(w, steps[0], t);
      RevocationIsFinal(Apply(w, steps[0]), steps[1..], t, value, now);
    }
  }

  lemma RevokedNow(w: World, t: TokenId, now: Time)
    requires t in w.db.records
    ensures var after := Apply(w, RevokeStep(t, now)).db;
            && t in after.records && after.records[t].revokedAt.Some?
            && (w.db.records[t].kind.Service? && w.db.records[t].revokedAt.None? ==>
                  !SubjectActive(after, w.db.records[t].subject))
  {
  }

  /** Once a record of either kind has been revoked, no string authenticates it, however the run goes on. */
  lemma RevokedNeverAuthenticates(w: World, t: TokenId, now: Time, steps: seq<Step>, value: string, later: Time)
    requires t in w.db.records && PossibleRun(Apply(w, RevokeStep(t, now)), steps)
    ensures Authenticate(Run(Apply(w, RevokeStep(t, now)), steps).db, value, later) != Some(t)
  {
    hide Authenticate, Apply;
    RevokedNow(w, t, now);
    RevocationIsFinal(Apply(w, RevokeStep(t, now)), steps, t, value, later);
  }

  // The two ways a subject becomes active: directly, and as the subject of a new service token.
  predicate Activates(step: Step, subject: UserId) {
    || (step.SetActiveStep? && step.user == subject && step.on)
    || (step.IssueStep? && step.kind.Service? && step.subject == subject)
  }

  lemma {:induction false} StaysInactive(w: World, steps: seq<Step>, subject: UserId)
    requires !SubjectActive(w.db, subject) && forall step | step in steps :: !Activates(step, subject)
    ensures !SubjectActive(Run(w, steps).db, subject)
    decreases |steps|
  {
    if steps != [] {
      assert !Activates(steps[0], subject);
      hide Authenticate;
      StaysInactive(Apply(w, steps[0]), steps[1..], subject);
    }
  }

  /** Revoking a service token silences its subject: until the subject is activated again, no record of it
      authenticates. */
  lemma RevokedServiceSilencesSubject(
    w: World, t: TokenId, now: Time, steps: seq<Step>, value: string, later: Time, k: TokenId)
    requires t in w.db.records && w.db.records[t].revokedAt.None? && w.db.records[t].kind.Service?
    requires forall step | step in steps :: !Activates(step, w.db.records[t].subject)
    ensures var after := Run(Apply(w, RevokeStep(t, now)), steps).db;
            Authenticate(after, value, later) == Some(k) ==>
              k in after.records && after.records[k].subject != w.db.records[t].subject
  {
    RevokedNow(w, t, now);
    hide Apply, Parse, CheckPassword;
    StaysInactive(Apply(w, RevokeStep(t, now)), steps, w.db.records[t].subject);
  }

  /** Revoking leaves every other record as it was, and honoured as before unless it shares the subject of a service
      token. */
  lemma RevocationSparesOthers(db: TokenDb, t: TokenId, now: Time, k: TokenId, value: string, later: Time)
    requires t in db.records && db.records[t].revokedAt.None? && k in db.records && k != t
    ensures var after := RevokeToken(db, t, now);
            && k in after.records && after.records[k] == db.records[k]
            && (db.records[t].kind.Personal? || db.records[k].subject != db.records[t].subject ==>
                  (Authenticate(after, value, later) == Some(k) <==> Authenticate(db, value, later) == Some(k)))
  {
    hide CheckPassword, Parse, WithPrefix;
    if Parse(value).Some? {
      SamePrefixes(db, RevokeToken(db, t, now), Parse(value).value.prefix);
    }
  }

  lemma SamePrefixes(a: TokenDb, b: TokenDb, prefix: string)
    requires a.records.Keys == b.records.Keys && forall k | k in a.records :: a.records[k].prefix == b.records[k].prefix
    ensures WithPrefix(a, prefix) == WithPrefix(b, prefix)
  {
    var inA: set<TokenId> := set k | k in a.records && a.records[k].prefix == prefix;
    var inB: set<TokenId> := set k | k in b.records && b.records[k].prefix == prefix;
    assert inA == inB && WithPrefix(a, prefix) == First(inA) && WithPrefix(b, prefix) == First(inB);
  }

  // ---- What issue, rotation and use leave ----

  /** A new record is locked, unused and unrevoked, in its first generation, with the subject, credential and expiry asked
      for; issuing a service token makes its subject active. */
  lemma IssuedLeaves(
    db: TokenDb, t: TokenId, kind: TokenKind, subject: UserId, credential: BearerToken, material: Material,
    now: Time, expiresAt: Time)
    ensures IssueToken(db, t, kind, subject, credential, material, now, expiresAt)
         == TokenDb(
              db.records[t := TokenRecord(kind, subject, credential, material.prefix,
                                          SecretHash(material.salt, material.secret), 1, expiresAt, None, None, Some(now))],
              if kind == Service then db.active[subject := true] else db.active)
  {
  }

  /** Rotation changes the material, the generation, the expiry and the last use of one unrevoked record; whom it speaks
      for and what it may do stay. */
  lemma RotatedLeaves(w: World, t: TokenId, material: Material, expiresAt: Time)
    ensures var after := Apply(w, RotateStep(t, material, expiresAt)).db;
            if t in w.db.records && w.db.records[t].revokedAt == None then
              after == w.db.(records := w.db.records[t := w.db.records[t].(
                prefix := material.prefix, hash := SecretHash(material.salt, material.secret),
                generation := w.db.records[t].generation + 1, expiresAt := expiresAt, lastUsedAt := None)])
            else after == w.db
  {
  }

  /** A use is recorded on the authenticated record alone, and only once in five minutes. */
  lemma UseLeaves(w: World, value: string, now: Time)
    ensures var found, after := Authenticate(w.db, value, now), Apply(w, UseStep(value, now)).db;
            if && found.Some?
               && (w.db.records[found.value].lastUsedAt == None
                   || now - w.db.records[found.value].lastUsedAt.value >= 300)
            then after == w.db.(records := w.db.records[found.value := w.db.records[found.value].(lastUsedAt := Some(now))])
            else after == w.db
  {
    hide Parse, CheckPassword;
  }
}

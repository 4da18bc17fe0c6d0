/** The life of personal keys: the SQL statements that change the table, which any
    clients may interleave, and the operations made of them. */
module PersonalKeys {
  import opened Wrappers
  import opened Text
  import opened KeyAccess

  type Id = string
  type Instant = int

  datatype Status = Active | Rotating | Expired | Revoked

  datatype Key = Key(
    user: string, name: string, scopes: seq<string>, channels: seq<string>, status: Status, version: int,
    expiresAt: Option<Instant>, graceExpiresAt: Option<Instant>, parent: Option<Id>)

  type Keys = map<Id, Key>

  function Rank(s: Status): int {
    match s
    case Active => 0
    case Rotating => 1
    case Expired => 2
    case Revoked => 3
  }

  predicate Live(key: Key) {
    key.status == Active || key.status == Rotating
  }

  /** The lifecycle test of authenticateKey. */
  predicate Valid(key: Key, now: Instant) {
    && (key.status == Active || (key.status == Rotating && key.graceExpiresAt.Some? && key.graceExpiresAt.value > now))
    && !(key.expiresAt.Some? && key.expiresAt.value < now)
  }

  // ----- Statements -----

  datatype Statement =
    | Insert(id: Id, key: Key)
    | SetAccess(id: Id, scopes: seq<string>, channels: seq<string>, version: int)
    | Park(id: Id, graceAt: Instant)
    | SetParent(id: Id, parent: Id)
    | RevokeOne(id: Id)
    | RevokeUser(user: string)
    | DetachUser(user: string)
    | RevokeDue(now: Instant)
    | ExpireDue(now: Instant)

  function Touch(id: Id, key: Key, st: Statement): Key {
    match st
    case Insert(_, _) => key
    case SetAccess(i, scopes, channels, version) =>
      if i == id && key.status == Active && key.version == version
      then key.(scopes := scopes, channels := channels, version := version + 1) else key
    case Park(i, graceAt) =>
      if i == id && key.status == Active then key.(status := Rotating, graceExpiresAt := Some(graceAt)) else key
    case SetParent(i, parent) => if i == id then key.(parent := Some(parent)) else key
    case RevokeOne(i) => if i == id && key.status != Revoked then key.(status := Revoked) else key
    case RevokeUser(user) => if key.user == user && Live(key) then key.(status := Revoked) else key
    case DetachUser(user) =>
      if key.user == user && Live(key) then key.(status := Revoked, graceExpiresAt := None) else key
    case RevokeDue(now) =>
      if key.status == Rotating && key.graceExpiresAt.Some? && key.graceExpiresAt.value <= now
      then key.(status := Revoked) else key
    case ExpireDue(now) =>
      if Live(key) && key.expiresAt.Some? && key.expiresAt.value <= now then key.(status := Expired) else key
  }

  /** One statement, atomically. An INSERT of a taken id fails. */
  function Apply(keys: Keys, st: Statement): Keys {
    if st.Insert? then if st.id in keys then keys else keys[st.id := st.key]
    else map id | id in keys :: Touch(id, keys[id], st)
  }

  function Run(keys: Keys, run: seq<Statement>): Keys {
    if run == [] then keys else Apply(Run(keys, run[..|run| - 1]), run[|run| - 1])
  }

  lemma RowAfter(keys: Keys, st: Statement, id: Id)
    requires id in keys
    ensures id in Apply(keys, st) && Apply(keys, st)[id] == Touch(id, keys[id], st)
  {
  }

  lemma {:induction false} RunOne(keys: Keys, st: Statement)
    ensures Run(keys, [st]) == Apply(keys, st)
  {
  }

  lemma {:induction false} RunTwo(keys: Keys, a: Statement, b: Statement)
    ensures Run(keys, [a, b]) == Apply(Apply(keys, a), b)
  {
    assert [a, b][..1] == [a];
    RunOne(keys, a);
  }

  lemma {:induction false} RunThree(keys: Keys, a: Statement, b: Statement, c: Statement)
    ensures Run(keys, [a, b, c]) == Apply(Apply(Apply(keys, a), b), c)
  {
    assert [a, b, c][..2] == [a, b];
    RunTwo(keys, a, b);
  }

  /** Statuses only move forward, keys are never dropped, and neither owner nor
      expiry ever changes: over any interleaving. */
  lemma {:induction false} StatusOnlyAdvances(keys: Keys, run: seq<Statement>, id: Id)
    requires id in keys
    ensures var after := Run(keys, run);
            && id in after && Rank(after[id].status) >= Rank(keys[id].status)
            && after[id].user == keys[id].user && after[id].expiresAt == keys[id].expiresAt
  {
    if run != [] {
      StatusOnlyAdvances(keys, run[..|run| - 1], id);
    }
  }

  lemma TouchOnlyWeakens(id: Id, key: Key, st: Statement, t: Instant)
    ensures Valid(Touch(id, key, st), t) ==> Valid(key, t)
  {
  }

  lemma {:induction false} RunOnlyWeakens(keys: Keys, run: seq<Statement>, id: Id, t: Instant)
    requires id in keys
    ensures id in Run(keys, run) && (Valid(Run(keys, run)[id], t) ==> Valid(keys[id], t))
  {
    if run != [] {
      RunOnlyWeakens(keys, run[..|run| - 1], id, t);
      TouchOnlyWeakens(id, Run(keys, run[..|run| - 1])[id], run[|run| - 1], t);
    }
  }

  /** A key that once fails the lifecycle test fails it at every later instant, after
      whatever statements ran in between. */
  lemma {:induction false} FailureIsPermanent(keys: Keys, id: Id, now: Instant, run: seq<Statement>, later: Instant)
    requires id in keys && !Valid(keys[id], now) && now <= later
    ensures id in Run(keys, run) && !Valid(Run(keys, run)[id], later)
  {
    RunOnlyWeakens(keys, run, id, later);
  }

  lemma MaintenanceOfKey(id: Id, key: Key, revokeAt: Instant, expireAt: Instant, t: Instant)
    requires revokeAt <= expireAt <= t
    ensures var after := Touch(id, Touch(id, key, RevokeDue(revokeAt)), ExpireDue(expireAt));
            Valid(after, t) != Valid(key, t) <==> Valid(key, t) && key.expiresAt == Some(t) && t == expireAt
  {
  }

  /** The maintenance pass reads the clock once for each of its statements. At no
      instant from then on does it change the verdict on a key, except for a valid key
      whose expiry is the very instant of the second reading, and then only there. */
  lemma {:induction false} MaintenanceVerdictIff(keys: Keys, id: Id, revokeAt: Instant, expireAt: Instant, t: Instant)
    requires id in keys && revokeAt <= expireAt <= t
    ensures var after := Run(keys, [RevokeDue(revokeAt), ExpireDue(expireAt)]);
            && id in after
            && (Valid(after[id], t) != Valid(keys[id], t)
                <==> Valid(keys[id], t) && keys[id].expiresAt == Some(t) && t == expireAt)
  {
    RunTwo(keys, RevokeDue(revokeAt), ExpireDue(expireAt));
    RowAfter(keys, RevokeDue(revokeAt), id);
    RowAfter(Apply(keys, RevokeDue(revokeAt)), ExpireDue(expireAt), id);
    MaintenanceOfKey(id, keys[id], revokeAt, expireAt, t);
  }

  // ----- Access of stored keys -----

  ghost predicate IsNormal(upper: char -> char, scopes: seq<string>, channels: seq<string>) {
    Normalized(scopes, ForScopes) == scopes && Normalized(channels, ForChannels(upper)) == channels
  }

  ghost predicate Stored(allowed: seq<string>, upper: char -> char, scopes: seq<string>, channels: seq<string>) {
    WellFormed(allowed, scopes, channels) && IsNormal(upper, scopes, channels)
  }

  ghost predicate AllStored(allowed: seq<string>, upper: char -> char, keys: Keys) {
    forall id | id in keys :: Stored(allowed, upper, keys[id].scopes, keys[id].channels)
  }

  /** Only checked access is ever written. */
  ghost predicate Checked(allowed: seq<string>, upper: char -> char, st: Statement) {
    match st
    case Insert(_, key) => key.status == Active && Stored(allowed, upper, key.scopes, key.channels)
    case SetAccess(_, scopes, channels, _) => Stored(allowed, upper, scopes, channels)
    case _ => true
  }

  /** So over any interleaving every stored key has the MCP channel exactly when it
      has the mcp:use scope, and only delegable scopes. */
  lemma {:induction false} RunKeepsAccess(allowed: seq<string>, upper: char -> char, keys: Keys, run: seq<Statement>)
    requires AllStored(allowed, upper, keys) && forall i | 0 <= i < |run| :: Checked(allowed, upper, run[i])
    ensures AllStored(allowed, upper, Run(keys, run))
    ensures forall id | id in Run(keys, run) :: MCP in Run(keys, run)[id].channels <==> MCP_USE in Run(keys, run)[id].scopes
  {
    if run != [] {
      var before, last := run[..|run| - 1], run[|run| - 1];
      forall i | 0 <= i < |before|
        ensures Checked(allowed, upper, before[i])
      {
        assert before[i] == run[i];
      }
      RunKeepsAccess(allowed, upper, keys, before);
      assert Checked(allowed, upper, last);
      StatementKeepsAccess(allowed, upper, Run(keys, before), last);
    }
  }

  lemma StatementKeepsAccess(allowed: seq<string>, upper: char -> char, keys: Keys, st: Statement)
    requires AllStored(allowed, upper, keys) && Checked(allowed, upper, st)
    ensures AllStored(allowed, upper, Apply(keys, st))
  {
    forall id | id in Apply(keys, st)
      ensures Stored(allowed, upper, Apply(keys, st)[id].scopes, Apply(keys, st)[id].channels)
    {
      if id in keys {
        assert Stored(allowed, upper, keys[id].scopes, keys[id].channels);
        RowAfter(keys, st, id);
        TouchKeepsAccess(id, keys[id], st);
      }
    }
  }

  /** A statement leaves a key's access alone or replaces it whole. */
  lemma TouchKeepsAccess(id: Id, key: Key, st: Statement)
    ensures var after := Touch(id, key, st);
            || (after.scopes == key.scopes && after.channels == key.channels)
            || (st.SetAccess? && after.scopes == st.scopes && after.channels == st.channels)
  {
  }

  /** unicode.ToUpper leaves capital letters alone. */
  ghost predicate KeepsCapitals(upper: char -> char) {
    forall c | 'A' <= c <= 'Z' :: upper(c) == c
  }

  lemma {:induction false} NormalScopesAreStable(values: seq<string>)
    ensures var scopes := Normalized(values, ForScopes); Normalized(scopes, ForScopes) == scopes
  {
    var scopes := Normalized(values, ForScopes);
    NormalizedHolds(values, ForScopes);
    forall s | s in scopes
      ensures s != "" && Clean(ForScopes, s) == s
    {
      var v :| v in values && Clean(ForScopes, v) == s;
      TrimIsIdempotent(v);
    }
    NormalizedKeeps(scopes, ForScopes);
  }

  lemma {:induction false} NormalChannelsAreStable(values: seq<string>, upper: char -> char)
    requires KeepsCapitals(upper)
    requires ValidChannels(Normalized(values, ForChannels(upper)))
    ensures var channels := Normalized(values, ForChannels(upper)); Normalized(channels, ForChannels(upper)) == channels
  {
    var channels := Normalized(values, ForChannels(upper));
    NormalizedHolds(values, ForChannels(upper));
    CleanNames(upper);
    NormalizedKeeps(channels, ForChannels(upper));
  }

  lemma CleanNames(upper: char -> char)
    requires KeepsCapitals(upper)
    ensures Clean(ForChannels(upper), REST) == REST && Clean(ForChannels(upper), MCP) == MCP
  {
  }

  // ----- Operations -----

  datatype Input = Input(name: string, scopes: seq<string>, channels: seq<string>, expiresAt: Option<Instant>)

  datatype KeyError =
    | NameRequired | QuotaReached | BadAccess(access: AccessError) | BadExpiry | IdTaken | VersionRequired | NotFound
    | AccessDenied | NotActive | Stale | AlreadyRevoked

  function HeldBy(keys: Keys, user: string): set<Id> {
    set id | id in keys && keys[id].user == user && Live(keys[id])
  }

  function ActiveOf(keys: Keys, user: string): set<Id> {
    set id | id in keys && keys[id].user == user && keys[id].status == Active
  }

  /** What create inserts under a new id, or why it does not. */
  function CreateOutcome(keys: Keys, policy: Policy, upper: char -> char, p: Principal, input: Input, id: Id,
        now: Instant, replacing: bool): Result<Key, KeyError> {
    var scopes, channels := Normalized(input.scopes, ForScopes), Normalized(input.channels, ForChannels(upper));
    NewRow(keys, policy, p, input, scopes, channels, AccessErrorOf(policy, p, scopes, channels), id, now, replacing)
  }

  /** The same once the access asked for is normalised and checked. */
  function NewRow(keys: Keys, policy: Policy, p: Principal, input: Input, scopes: seq<string>, channels: seq<string>,
                  access: Option<AccessError>, id: Id, now: Instant, replacing: bool): Result<Key, KeyError> {
    var expires := if input.expiresAt.Some? then input.expiresAt.value else now + policy.defaultLifetime;
    if TrimSpace(input.name) == "" then Err(NameRequired)
    else if |HeldBy(keys, p.userId)| >= policy.maxPerUser && !replacing then Err(QuotaReached)
    else if access.Some? then Err(BadAccess(access.value))
    else if expires < now || expires > now + policy.maxLifetime then Err(BadExpiry)
    else if id in keys then Err(IdTaken)
    else Ok(Key(p.userId, TrimSpace(input.name), scopes, channels, Active, 1, Some(expires), None, None))
  }

  function Replacement(key: Key): Input {
    Input(key.name, key.scopes, key.channels, key.expiresAt)
  }

  function RotateOutcome(keys: Keys, policy: Policy, upper: char -> char, p: Principal, id: Id, newId: Id,
        now: Instant):
    Result<Key, KeyError> {
    if id !in keys then Err(NotFound)
    else if keys[id].user != p.userId then Err(AccessDenied)
    else if keys[id].status != Active then Err(NotActive)
    else CreateOutcome(keys, policy, upper, p, Replacement(keys[id]), newId, now, true)
  }

  function UpdateError(keys: Keys, policy: Policy, upper: char -> char, p: Principal, id: Id, scopes: seq<string>,
                       channels: seq<string>, version: int): Option<KeyError> {
    var access := AccessErrorOf(policy, p, Normalized(scopes, ForScopes), Normalized(channels, ForChannels(upper)));
    if version < 1 then Some(VersionRequired)
    else if access.Some? then Some(BadAccess(access.value))
    else if id !in keys then Some(NotFound)
    else if keys[id].user != p.userId then Some(AccessDenied)
    else if keys[id].status != Active then Some(NotActive)
    else if keys[id].version != version then Some(Stale)
    else None
  }

  function RevokeError(keys: Keys, p: Principal, id: Id, admin: bool): Option<KeyError> {
    if id !in keys then Some(NotFound)
    else if keys[id].user != p.userId && !admin then Some(AccessDenied)
    else if keys[id].status == Revoked then Some(AlreadyRevoked)
    else None
  }

  datatype Op =
    | CreateKey(p: Principal, input: Input, id: Id, now: Instant)
    | RotateKey(p: Principal, id: Id, newId: Id, now: Instant, parkedAt: Instant)
    | UpdateKey(p: Principal, id: Id, scopes: seq<string>, channels: seq<string>, version: int)
    | RevokeKey(p: Principal, id: Id, admin: bool)
    | RevokeAllKeys(user: string)
    | Detach(user: string)
    | Maintain(locked: bool, revokeAt: Instant, expireAt: Instant)

  /** The statements an operation issues when it runs by itself. */
  function StatementsOf(keys: Keys, policy: Policy, upper: char -> char, op: Op): seq<Statement> {
    match op
    case CreateKey(p, input, id, now) =>
      var r := CreateOutcome(keys, policy, upper, p, input, id, now, false);
      if r.Ok? then [Insert(id, r.value)] else []
    case RotateKey(p, id, newId, now, parkedAt) =>
      var r := RotateOutcome(keys, policy, upper, p, id, newId, now);
      if r.Ok? then [Insert(newId, r.value), Park(id, parkedAt + policy.rotationGrace), SetParent(newId, id)] else []
    case UpdateKey(p, id, scopes, channels, version) =>
      if UpdateError(keys, policy, upper, p, id, scopes, channels, version).Some? then []
      else [SetAccess(id, Normalized(scopes, ForScopes), Normalized(channels, ForChannels(upper)), version)]
    case RevokeKey(p, id, admin) => if RevokeError(keys, p, id, admin).Some? then [] else [RevokeOne(id)]
    case RevokeAllKeys(user) => [RevokeUser(user)]
    case Detach(user) => [DetachUser(user)]
    case Maintain(locked, revokeAt, expireAt) => if locked then [RevokeDue(revokeAt), ExpireDue(expireAt)] else []
  }

  function Perform(keys: Keys, policy: Policy, upper: char -> char, op: Op): Keys {
    Run(keys, StatementsOf(keys, policy, upper, op))
  }

  /** An operation writes only access it has checked. */
  lemma OperationsAreChecked(keys: Keys, policy: Policy, upper: char -> char, op: Op)
    requires KeepsCapitals(upper)
    ensures forall i | 0 <= i < |StatementsOf(keys, policy, upper, op)| ::
              Checked(policy.allowedScopes, upper, StatementsOf(keys, policy, upper, op)[i])
  {
    match op
    case CreateKey(p, input, id, now) =>
      CreatedIsStored(keys, policy, upper, p, input, id, now, false);
    case RotateKey(p, id, newId, now, parkedAt) =>
      if id in keys {
        CreatedIsStored(keys, policy, upper, p, Replacement(keys[id]), newId, now, true);
      }
    case UpdateKey(p, id, scopes, channels, version) =>
      CheckedAccessIsStored(policy, upper, p, scopes, channels);
    case _ =>
  }

  lemma CreatedIsStored(keys: Keys, policy: Policy, upper: char -> char, p: Principal, input: Input, id: Id,
        now: Instant, replacing: bool)
    requires KeepsCapitals(upper)
    ensures var r := CreateOutcome(keys, policy, upper, p, input, id, now, replacing);
            r.Ok? ==> r.value.status == Active && Stored(policy.allowedScopes, upper, r.value.scopes, r.value.channels)
  {
    CheckedAccessIsStored(policy, upper, p, input.scopes, input.channels);
  }

  lemma {:induction false} CheckedAccessIsStored(policy: Policy, upper: char -> char, p: Principal,
        scopes: seq<string>, channels: seq<string>)
    requires KeepsCapitals(upper)
    ensures var s, c := Normalized(scopes, ForScopes), Normalized(channels, ForChannels(upper));
            AccessErrorOf(policy, p, s, c) == None ==> Stored(policy.allowedScopes, upper, s, c)
  {
    var s, c := Normalized(scopes, ForScopes), Normalized(channels, ForChannels(upper));
    if AccessErrorOf(policy, p, s, c) == None {
      GrantedIff(policy, p, s, c);
      NormalScopesAreStable(scopes);
      NormalChannelsAreStable(channels, upper);
    }
  }

  /** after is keys with an active key parked and its replacement added. */
  ghost predicate Replaces(keys: Keys, after: Keys, id: Id, newId: Id, row: Key, graceAt: Instant) {
    && id in keys && keys[id].status == Active && newId !in keys
    && id in after && newId in after
    && after[id] == keys[id].(status := Rotating, graceExpiresAt := Some(graceAt))
    && after[newId] == row.(parent := Some(id))
    && (forall x :: x in after <==> x in keys || x == newId)
    && (forall x | x in keys && x != id :: after[x] == keys[x])
  }

  lemma {:induction false} ReplacementRows(keys: Keys, id: Id, newId: Id, row: Key, graceAt: Instant)
    requires id in keys && keys[id].status == Active && newId !in keys
    ensures Replaces(keys, Run(keys, [Insert(newId, row), Park(id, graceAt), SetParent(newId, id)]), id, newId, row, graceAt)
  {
    RunThree(keys, Insert(newId, row), Park(id, graceAt), SetParent(newId, id));
    var inserted := Apply(keys, Insert(newId, row));
    var parked := Apply(inserted, Park(id, graceAt));
    forall x | x in inserted
      ensures x in parked && Apply(parked, SetParent(newId, id))[x]
           == Touch(x, Touch(x, inserted[x], Park(id, graceAt)), SetParent(newId, id))
    {
      RowAfter(inserted, Park(id, graceAt), x);
      RowAfter(parked, SetParent(newId, id), x);
    }
  }

  lemma CreatedRow(keys: Keys, policy: Policy, upper: char -> char, p: Principal, input: Input, id: Id, now: Instant,
                   replacing: bool)
    requires CreateOutcome(keys, policy, upper, p, input, id, now, replacing).Ok?
    ensures var row := CreateOutcome(keys, policy, upper, p, input, id, now, replacing).value;
            && id !in keys && row.user == p.userId && row.status == Active && row.parent == None
            && row.scopes == Normalized(input.scopes, ForScopes) && row.channels == Normalized(input.channels, ForChannels(upper))
            && (input.expiresAt.Some? ==> row.expiresAt == input.expiresAt)
            && (replacing || |HeldBy(keys, p.userId)| < policy.maxPerUser)
  {
  }

  /** The replacement a rotation makes of a key: same user, access and expiry. */
  ghost predicate Succeeds(key: Key, row: Key, upper: char -> char) {
    && row.user == key.user && row.status == Active
    && row.scopes == Normalized(key.scopes, ForScopes) && row.channels == Normalized(key.channels, ForChannels(upper))
    && (key.expiresAt.Some? ==> row.expiresAt == key.expiresAt)
  }

  /** A rotation that is not refused issues these three statements. */
  lemma RotationStatements(keys: Keys, policy: Policy, upper: char -> char, op: Op, row: Key)
    requires op.RotateKey? && RotateOutcome(keys, policy, upper, op.p, op.id, op.newId, op.now) == Ok(row)
    ensures StatementsOf(keys, policy, upper, op)
         == [Insert(op.newId, row), Park(op.id, op.parkedAt + policy.rotationGrace), SetParent(op.newId, op.id)]
  {
  }

  lemma RotatedRow(keys: Keys, policy: Policy, upper: char -> char, op: Op, row: Key)
    requires op.RotateKey? && RotateOutcome(keys, policy, upper, op.p, op.id, op.newId, op.now) == Ok(row)
    ensures op.id in keys && keys[op.id].status == Active && keys[op.id].user == op.p.userId && op.newId !in keys
    ensures Succeeds(keys[op.id], row, upper)
  {
  }

  lemma RotationEffect(keys: Keys, policy: Policy, upper: char -> char, op: Op, row: Key)
    requires op.RotateKey? && RotateOutcome(keys, policy, upper, op.p, op.id, op.newId, op.now) == Ok(row)
    ensures op.id in keys && keys[op.id].user == op.p.userId && Succeeds(keys[op.id], row, upper)
    ensures Replaces(keys, Perform(keys, policy, upper, op), op.id, op.newId, row, op.parkedAt + policy.rotationGrace)
  {
    RotatedRow(keys, policy, upper, op, row);
    RotationStatements(keys, policy, upper, op, row);
    ReplacementRows(keys, op.id, op.newId, row, op.parkedAt + policy.rotationGrace);
  }

  /** Owner, access and expiry pass to the new key, which is usable as long as the old
      one would have been; the old one stays usable until its grace runs out. */
  ghost predicate HandsOver(keys: Keys, after: Keys, id: Id, newId: Id, graceAt: Instant, t: Instant) {
    && id != newId && id in keys && id in after && newId in after
    && after[newId].user == keys[id].user && after[newId].expiresAt == keys[id].expiresAt
    && after[newId].scopes == keys[id].scopes && after[newId].channels == keys[id].channels
    && (Valid(after[newId], t) <==> Valid(keys[id], t))
    && (Valid(after[id], t) <==> Valid(keys[id], t) && t < graceAt)
  }

  lemma ReplacementHandsOver(keys: Keys, after: Keys, id: Id, newId: Id, row: Key, graceAt: Instant,
                             upper: char -> char, t: Instant)
    requires Replaces(keys, after, id, newId, row, graceAt) && Succeeds(keys[id], row, upper) && keys[id].expiresAt.Some?
    requires IsNormal(upper, keys[id].scopes, keys[id].channels)
    ensures HandsOver(keys, after, id, newId, graceAt, t)
  {
  }

  lemma RotationHandsOver(keys: Keys, policy: Policy, upper: char -> char, op: Op, t: Instant)
    requires op.RotateKey? && RotateOutcome(keys, policy, upper, op.p, op.id, op.newId, op.now).Ok?
    requires IsNormal(upper, keys[op.id].scopes, keys[op.id].channels) && keys[op.id].expiresAt.Some?
    ensures HandsOver(keys, Perform(keys, policy, upper, op), op.id, op.newId, op.parkedAt + policy.rotationGrace, t)
  {
    var row := RotateOutcome(keys, policy, upper, op.p, op.id, op.newId, op.now).value;
    RotationEffect(keys, policy, upper, op, row);
    ReplacementHandsOver(keys, Perform(keys, policy, upper, op), op.id, op.newId, row, op.parkedAt + policy.rotationGrace,
                         upper, t);
  }

  // ----- The quota, when operations run one after another -----

  ghost predicate WithinQuota(keys: Keys, max: int) {
    forall user :: |ActiveOf(keys, user)| <= max
  }

  lemma FewerActive(keys: Keys, after: Keys, user: string)
    requires ActiveOf(after, user) <= ActiveOf(keys, user)
    ensures |ActiveOf(after, user)| <= |ActiveOf(keys, user)|
  {
    SubsetIsSmaller(ActiveOf(after, user), ActiveOf(keys, user));
  }

  lemma {:induction false} SubsetIsSmaller<T>(a: set<T>, b: set<T>)
    requires a <= b
    ensures |a| <= |b|
  {
    assert b == a + (b - a);
  }

  /** No statement but an INSERT makes a key active. */
  lemma {:induction false} RunActivatesNothing(keys: Keys, run: seq<Statement>, user: string)
    requires forall i | 0 <= i < |run| :: !run[i].Insert?
    ensures ActiveOf(Run(keys, run), user) <= ActiveOf(keys, user)
  {
    if run != [] {
      var before, last := run[..|run| - 1], run[|run| - 1];
      assert forall i | 0 <= i < |before| :: before[i] == run[i];
      RunActivatesNothing(keys, before, user);
      ApplyActivatesNothing(Run(keys, before), last, user);
    }
  }

  lemma ApplyActivatesNothing(keys: Keys, st: Statement, user: string)
    requires !st.Insert?
    ensures ActiveOf(Apply(keys, st), user) <= ActiveOf(keys, user)
  {
  }

  lemma CreateKeepsQuota(keys: Keys, policy: Policy, upper: char -> char, op: Op, user: string)
    requires op.CreateKey? && |ActiveOf(keys, user)| <= policy.maxPerUser
    ensures |ActiveOf(Perform(keys, policy, upper, op), user)| <= policy.maxPerUser
  {
    var r := CreateOutcome(keys, policy, upper, op.p, op.input, op.id, op.now, false);
    if r.Ok? {
      CreatedRow(keys, policy, upper, op.p, op.input, op.id, op.now, false);
      RunOne(keys, Insert(op.id, r.value));
      InsertKeepsQuota(keys, op.id, r.value, policy.maxPerUser, user);
    }
  }

  lemma InsertKeepsQuota(keys: Keys, id: Id, row: Key, max: int, user: string)
    requires id !in keys && row.status == Active && |HeldBy(keys, row.user)| < max && |ActiveOf(keys, user)| <= max
    ensures |ActiveOf(Apply(keys, Insert(id, row)), user)| <= max
  {
    OneInsert(keys, id, row);
    if user == row.user {
      ActiveIsHeld(keys, user);
    } else {
      assert ActiveOf(keys[id := row], user) == ActiveOf(keys, user);
    }
  }

  lemma ActiveIsHeld(keys: Keys, user: string)
    ensures |ActiveOf(keys, user)| <= |HeldBy(keys, user)|
  {
    SubsetIsSmaller(ActiveOf(keys, user), HeldBy(keys, user));
  }

  lemma RotateKeepsQuota(keys: Keys, policy: Policy, upper: char -> char, op: Op, user: string)
    requires op.RotateKey?
    ensures |ActiveOf(Perform(keys, policy, upper, op), user)| == |ActiveOf(keys, user)|
  {
    if RotateOutcome(keys, policy, upper, op.p, op.id, op.newId, op.now).Ok? {
      var row := RotateOutcome(keys, policy, upper, op.p, op.id, op.newId, op.now).value;
      RotationEffect(keys, policy, upper, op, row);
      var after := Perform(keys, policy, upper, op);
      ReplacementKeepsCount(keys, after, op.id, op.newId, row, op.parkedAt + policy.rotationGrace, user);
    }
  }

  lemma ReplacementKeepsCount(keys: Keys, after: Keys, id: Id, newId: Id, row: Key, graceAt: Instant, user: string)
    requires Replaces(keys, after, id, newId, row, graceAt) && row.user == keys[id].user && row.status == Active
    ensures |ActiveOf(after, user)| == |ActiveOf(keys, user)|
  {
    if user == row.user {
      assert ActiveOf(after, user) == ActiveOf(keys, user) - {id} + {newId};
    } else {
      assert ActiveOf(after, user) == ActiveOf(keys, user);
    }
  }

  function PerformAll(keys: Keys, policy: Policy, upper: char -> char, ops: seq<Op>): Keys {
    if ops == [] then keys
    else Perform(PerformAll(keys, policy, upper, ops[..|ops| - 1]), policy, upper, ops[|ops| - 1])
  }

  /** Serial runs write only checked access, so they keep every stored key's access in
      order. */
  lemma {:induction false} OperationsKeepAccess(keys: Keys, policy: Policy, upper: char -> char, ops: seq<Op>)
    requires KeepsCapitals(upper) && AllStored(policy.allowedScopes, upper, keys)
    ensures AllStored(policy.allowedScopes, upper, PerformAll(keys, policy, upper, ops))
  {
    if ops != [] {
      var before := PerformAll(keys, policy, upper, ops[..|ops| - 1]);
      OperationsKeepAccess(keys, policy, upper, ops[..|ops| - 1]);
      OperationsAreChecked(before, policy, upper, ops[|ops| - 1]);
      RunKeepsAccess(policy.allowedScopes, upper, before, StatementsOf(before, policy, upper, ops[|ops| - 1]));
    }
  }

  lemma PerformKeepsQuota(keys: Keys, policy: Policy, upper: char -> char, op: Op, user: string)
    requires |ActiveOf(keys, user)| <= policy.maxPerUser
    ensures |ActiveOf(Perform(keys, policy, upper, op), user)| <= policy.maxPerUser
  {
    if op.CreateKey? {
      CreateKeepsQuota(keys, policy, upper, op, user);
    } else if op.RotateKey? {
      RotateKeepsQuota(keys, policy, upper, op, user);
    } else {
      RunActivatesNothing(keys, StatementsOf(keys, policy, upper, op), user);
      FewerActive(keys, Perform(keys, policy, upper, op), user);
    }
  }

  /** In any serial run under a fixed policy no user ever has more active keys than
      the quota, although a rotation skips the quota check. */
  lemma {:induction false} QuotaHoldsSerially(keys: Keys, policy: Policy, upper: char -> char, ops: seq<Op>)
    requires WithinQuota(keys, policy.maxPerUser)
    ensures WithinQuota(PerformAll(keys, policy, upper, ops), policy.maxPerUser)
  {
    if ops != [] {
      QuotaHoldsSerially(keys, policy, upper, ops[..|ops| - 1]);
      forall user
        ensures |ActiveOf(PerformAll(keys, policy, upper, ops), user)| <= policy.maxPerUser
      {
        PerformKeepsQuota(PerformAll(keys, policy, upper, ops[..|ops| - 1]), policy, upper, ops[|ops| - 1], user);
      }
    }
  }

  lemma OneInsert(keys: Keys, i: Id, a: Key)
    requires i !in keys && a.status == Active
    ensures Apply(keys, Insert(i, a)) == keys[i := a]
    ensures |ActiveOf(keys[i := a], a.user)| == |ActiveOf(keys, a.user)| + 1
  {
    assert ActiveOf(keys[i := a], a.user) == ActiveOf(keys, a.user) + {i};
  }
}

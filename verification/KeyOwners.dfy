/** Who can change a personal key, and exactly which requests do: every operation,
    said on the stored rows. */
module KeyOwners {
  import opened Wrappers
  import opened Text
  import opened KeyAccess
  import opened PersonalKeys

  // ----- Access asked for -----

  /** The access asked for, cleaned, is well formed, its channels are switched on and
      the user holds every scope. */
  ghost predicate MayHave(policy: Policy, upper: char -> char, p: Principal, scopes: seq<string>,
        channels: seq<string>) {
    var s, c := Normalized(scopes, ForScopes), Normalized(channels, ForChannels(upper));
    && WellFormed(policy.allowedScopes, s, c)
    && (REST in c ==> policy.restEnabled) && (MCP in c ==> policy.mcpEnabled)
    && (forall scope | scope in s :: p.isBootstrap || Has(p, scope))
  }

  lemma {:induction false} MayHaveIff(policy: Policy, upper: char -> char, p: Principal, scopes: seq<string>,
        channels: seq<string>)
    ensures MayHave(policy, upper, p, scopes, channels)
       <==> AccessErrorOf(policy, p, Normalized(scopes, ForScopes), Normalized(channels, ForChannels(upper))) == None
  {
    GrantedIff(policy, p, Normalized(scopes, ForScopes), Normalized(channels, ForChannels(upper)));
  }

  // ----- Single statements -----

  /** Every row goes through the statement; no row comes or goes. */
  lemma {:induction false} RowsAfter(keys: Keys, st: Statement)
    requires !st.Insert?
    ensures Run(keys, [st]).Keys == keys.Keys && forall id | id in keys :: Run(keys, [st])[id] == Touch(id, keys[id], st)
  {
    RunOne(keys, st);
  }

  // ----- Updating access -----

  /** Who may give a key other access, and when. */
  ghost predicate CanUpdate(keys: Keys, policy: Policy, upper: char -> char, p: Principal, id: Id, scopes: seq<string>,
                            channels: seq<string>, version: int) {
    && id in keys && keys[id].user == p.userId
    && keys[id].status == Active && keys[id].version == version && version >= 1
    && MayHave(policy, upper, p, scopes, channels)
  }

  lemma UpdateErrorIff(keys: Keys, policy: Policy, upper: char -> char, p: Principal, id: Id, scopes: seq<string>,
                       channels: seq<string>, version: int)
    ensures UpdateError(keys, policy, upper, p, id, scopes, channels, version) == None
       <==> CanUpdate(keys, policy, upper, p, id, scopes, channels, version)
  {
    MayHaveIff(policy, upper, p, scopes, channels);
  }

  /** An update takes effect exactly when the caller owns the ACTIVE key, names its
      version and may have the access; then just the access changes, and the version. */
  lemma {:induction false} UpdateIff(keys: Keys, policy: Policy, upper: char -> char, p: Principal, id: Id,
        scopes: seq<string>, channels: seq<string>, version: int)
    ensures Perform(keys, policy, upper, UpdateKey(p, id, scopes, channels, version))
         == if CanUpdate(keys, policy, upper, p, id, scopes, channels, version)
            then keys[id := keys[id].(scopes := Normalized(scopes, ForScopes),
                                      channels := Normalized(channels, ForChannels(upper)), version := version + 1)]
            else keys
  {
    UpdateErrorIff(keys, policy, upper, p, id, scopes, channels, version);
    if CanUpdate(keys, policy, upper, p, id, scopes, channels, version) {
      RowsAfter(keys, SetAccess(id, Normalized(scopes, ForScopes), Normalized(channels, ForChannels(upper)), version));
    }
  }

  // ----- Revoking -----

  /** A revocation takes effect exactly when the caller owns the key or administers
      keys, and it has not been revoked yet; then just its status changes. */
  lemma RevocationIff(keys: Keys, policy: Policy, upper: char -> char, p: Principal, id: Id, admin: bool)
    ensures Perform(keys, policy, upper, RevokeKey(p, id, admin))
         == if id in keys && (keys[id].user == p.userId || admin) && keys[id].status != Revoked
            then keys[id := keys[id].(status := Revoked)]
            else keys
    ensures RevokeError(keys, p, id, admin)
         == if id !in keys then Some(NotFound)
            else if keys[id].user == p.userId || admin then (if keys[id].status == Revoked then Some(AlreadyRevoked) else None)
            else Some(AccessDenied)
  {
    if id in keys && (keys[id].user == p.userId || admin) && keys[id].status != Revoked {
      RowsAfter(keys, RevokeOne(id));
    }
  }

  /** Revoking a user's keys takes the live ones, and no key of anybody else. A
      deactivated account's lose their grace as well. */
  lemma RevokingAllTakesLiveKeys(keys: Keys, policy: Policy, upper: char -> char, user: string, id: Id)
    requires id in keys
    ensures var key := keys[id];
            var taken := key.user == user && (key.status == Active || key.status == Rotating);
            && id in Perform(keys, policy, upper, RevokeAllKeys(user))
            && Perform(keys, policy, upper, RevokeAllKeys(user))[id] == (if taken then key.(status := Revoked) else key)
            && id in Perform(keys, policy, upper, Detach(user))
            && Perform(keys, policy, upper, Detach(user))[id]
               == (if taken then key.(status := Revoked, graceExpiresAt := None) else key)
  {
    RowsAfter(keys, RevokeUser(user));
    RowsAfter(keys, Statement.DetachUser(user));
  }

  /** A maintenance pass that has the lock revokes the rotating keys whose grace is over
      and expires the other live keys whose time is up; it does nothing else. */
  lemma MaintenanceMoves(keys: Keys, policy: Policy, upper: char -> char, revokeAt: Instant, expireAt: Instant, id: Id)
    requires id in keys
    ensures var key, after := keys[id], Perform(keys, policy, upper, Maintain(true, revokeAt, expireAt));
            && id in after
            && after[id]
               == if key.status == Rotating && key.graceExpiresAt.Some? && key.graceExpiresAt.value <= revokeAt
                  then key.(status := Revoked)
                  else if (key.status == Active || key.status == Rotating) && key.expiresAt.Some? && key.expiresAt.value <= expireAt
                  then key.(status := Expired)
                  else key
    ensures Perform(keys, policy, upper, Maintain(false, revokeAt, expireAt)) == keys
  {
    RunTwo(keys, RevokeDue(revokeAt), ExpireDue(expireAt));
    RowAfter(keys, RevokeDue(revokeAt), id);
    RowAfter(Apply(keys, RevokeDue(revokeAt)), ExpireDue(expireAt), id);
  }

  // ----- Creating -----

  function ExpiryAsked(policy: Policy, input: Input, now: Instant): Instant {
    if input.expiresAt.Some? then input.expiresAt.value else now + policy.defaultLifetime
  }

  /** The keys a user has that may still be used. */
  function LiveKeys(keys: Keys, user: string): set<Id> {
    set id | id in keys && keys[id].user == user && (keys[id].status == Active || keys[id].status == Rotating)
  }

  /** A key is named, its access granted, and it lives no longer than the policy allows. */
  ghost predicate Acceptable(policy: Policy, upper: char -> char, p: Principal, input: Input, now: Instant) {
    && TrimSpace(input.name) != ""
    && MayHave(policy, upper, p, input.scopes, input.channels)
    && now <= ExpiryAsked(policy, input, now) <= now + policy.maxLifetime
  }

  /** The row of a new key: the caller's own, ACTIVE, of version 1. */
  function NewKey(policy: Policy, upper: char -> char, p: Principal, input: Input, now: Instant): Key {
    Key(p.userId, TrimSpace(input.name), Normalized(input.scopes, ForScopes), Normalized(input.channels, ForChannels(upper)),
        Active, 1, Some(ExpiryAsked(policy, input, now)), None, None)
  }

  lemma OutcomeIff(keys: Keys, policy: Policy, upper: char -> char, p: Principal, input: Input, id: Id, now: Instant,
        replacing: bool)
    ensures var r := CreateOutcome(keys, policy, upper, p, input, id, now, replacing);
            && (r.Ok? <==> && Acceptable(policy, upper, p, input, now) && id !in keys
                           && (replacing || |LiveKeys(keys, p.userId)| < policy.maxPerUser))
            && (r.Ok? ==> r.value == NewKey(policy, upper, p, input, now))
  {
    MayHaveIff(policy, upper, p, input.scopes, input.channels);
    assert HeldBy(keys, p.userId) == LiveKeys(keys, p.userId);
  }

  /** A creation takes effect exactly when the key is acceptable, its id is new and the
      user has fewer live keys than the quota; then just this key is added. */
  lemma CreationIff(keys: Keys, policy: Policy, upper: char -> char, p: Principal, input: Input, id: Id, now: Instant)
    ensures Perform(keys, policy, upper, CreateKey(p, input, id, now))
         == if Acceptable(policy, upper, p, input, now) && id !in keys && |LiveKeys(keys, p.userId)| < policy.maxPerUser
            then keys[id := NewKey(policy, upper, p, input, now)]
            else keys
  {
    OutcomeIff(keys, policy, upper, p, input, id, now, false);
    var r := CreateOutcome(keys, policy, upper, p, input, id, now, false);
    if r.Ok? {
      RunOne(keys, Insert(id, r.value));
    }
  }

  /** A creation or a rotation that is refused is told why. */
  lemma RefusalIsTrue(keys: Keys, policy: Policy, upper: char -> char, p: Principal, input: Input, id: Id,
        now: Instant, replacing: bool)
    requires CreateOutcome(keys, policy, upper, p, input, id, now, replacing).Err?
    ensures match CreateOutcome(keys, policy, upper, p, input, id, now, replacing).error
            case NameRequired => TrimSpace(input.name) == ""
            case QuotaReached => !replacing && |LiveKeys(keys, p.userId)| >= policy.maxPerUser
            case BadAccess(e) => !MayHave(policy, upper, p, input.scopes, input.channels)
            case BadExpiry => !(now <= ExpiryAsked(policy, input, now) <= now + policy.maxLifetime)
            case IdTaken => id in keys
            case _ => false
  {
    MayHaveIff(policy, upper, p, input.scopes, input.channels);
    assert HeldBy(keys, p.userId) == LiveKeys(keys, p.userId);
  }

  /** An update that is refused is told why. */
  lemma UpdateRefusalIsTrue(keys: Keys, policy: Policy, upper: char -> char, p: Principal, id: Id, scopes: seq<string>,
                            channels: seq<string>, version: int)
    requires UpdateError(keys, policy, upper, p, id, scopes, channels, version).Some?
    ensures match UpdateError(keys, policy, upper, p, id, scopes, channels, version).value
            case VersionRequired => version < 1
            case BadAccess(e) => !MayHave(policy, upper, p, scopes, channels)
            case NotFound => id !in keys
            case AccessDenied => id in keys && keys[id].user != p.userId
            case NotActive => id in keys && keys[id].status != Active
            case Stale => id in keys && keys[id].version != version
            case _ => false
  {
    MayHaveIff(policy, upper, p, scopes, channels);
  }

  /** A rotation goes through exactly when the caller owns the ACTIVE key, the same key
      would be accepted now, whatever the quota, and the new id is free. */
  lemma RotationIff(keys: Keys, policy: Policy, upper: char -> char, p: Principal, id: Id, newId: Id, now: Instant,
        parkedAt: Instant)
    ensures Perform(keys, policy, upper, RotateKey(p, id, newId, now, parkedAt)) != keys
       <==> && id in keys && keys[id].user == p.userId && keys[id].status == Active && newId !in keys
            && Acceptable(policy, upper, p, Input(keys[id].name, keys[id].scopes, keys[id].channels, keys[id].expiresAt), now)
  {
    var op := RotateKey(p, id, newId, now, parkedAt);
    if id in keys && keys[id].user == p.userId && keys[id].status == Active {
      OutcomeIff(keys, policy, upper, p, Replacement(keys[id]), newId, now, true);
    }
    var r := RotateOutcome(keys, policy, upper, p, id, newId, now);
    if r.Ok? {
      RotationEffect(keys, policy, upper, op, r.value);
    }
  }

  // ----- Who may change what -----

  /** Who may change this key: its owner, an administrator by revoking it, whoever
      revokes all keys of its owner, and the maintenance pass. */
  predicate MayChange(keys: Keys, op: Op, id: Id)
    requires id in keys
  {
    match op
    case CreateKey(_, _, _, _) => false
    case RotateKey(p, target, _, _, _) => id == target && keys[id].user == p.userId
    case UpdateKey(p, target, _, _, _) => id == target && keys[id].user == p.userId
    case RevokeKey(p, target, admin) => id == target && (keys[id].user == p.userId || admin)
    case RevokeAllKeys(user) => keys[id].user == user
    case Detach(user) => keys[id].user == user
    case Maintain(locked, _, _) => locked
  }

  /** Who adds this key: its user, by creating it or rotating another key of his. */
  predicate Adds(keys: Keys, op: Op, id: Id, user: string) {
    || (op.CreateKey? && op.id == id && op.p.userId == user)
    || (op.RotateKey? && op.newId == id && op.p.userId == user && op.id in keys && keys[op.id].user == user)
  }

  lemma RotationNeedsRight(keys: Keys, policy: Policy, upper: char -> char, op: Op, id: Id)
    requires op.RotateKey?
    ensures var after := Perform(keys, policy, upper, op);
            && (id in keys ==> id in after && (after[id] == keys[id] || MayChange(keys, op, id)))
            && (id in after && id !in keys ==> Adds(keys, op, id, after[id].user))
  {
    var r := RotateOutcome(keys, policy, upper, op.p, op.id, op.newId, op.now);
    if r.Ok? {
      RotationEffect(keys, policy, upper, op, r.value);
    }
  }

  /** An operation changes a key only by somebody who may change it, adds a key only to
      the user acting, and removes none. */
  lemma ChangesNeedRight(keys: Keys, policy: Policy, upper: char -> char, op: Op, id: Id)
    ensures var after := Perform(keys, policy, upper, op);
            && (id in keys ==> id in after && (after[id] == keys[id] || MayChange(keys, op, id)))
            && (id in after && id !in keys ==> Adds(keys, op, id, after[id].user))
  {
    match op
    case CreateKey(p, input, added, now) => CreationIff(keys, policy, upper, p, input, added, now);
    case RotateKey(_, _, _, _, _) => RotationNeedsRight(keys, policy, upper, op, id);
    case UpdateKey(p, target, scopes, channels, version) => UpdateIff(keys, policy, upper, p, target, scopes, channels, version);
    case RevokeKey(p, target, admin) => RevocationIff(keys, policy, upper, p, target, admin);
    case RevokeAllKeys(user) =>
      RowsAfter(keys, RevokeUser(user));
      if id in keys {
        RevokingAllTakesLiveKeys(keys, policy, upper, user, id);
      }
    case Detach(user) =>
      RowsAfter(keys, Statement.DetachUser(user));
      if id in keys {
        RevokingAllTakesLiveKeys(keys, policy, upper, user, id);
      }
    case Maintain(locked, revokeAt, expireAt) =>
      if locked {
        RunTwo(keys, RevokeDue(revokeAt), ExpireDue(expireAt));
      }
  }

  /** An operation of somebody else who is no administrator. */
  predicate ByOthers(op: Op, user: string) {
    match op
    case CreateKey(p, _, _, _) => p.userId != user
    case RotateKey(p, _, _, _, _) => p.userId != user
    case UpdateKey(p, _, _, _, _) => p.userId != user
    case RevokeKey(p, _, admin) => p.userId != user && !admin
    case RevokeAllKeys(other) => other != user
    case Detach(other) => other != user
    case Maintain(locked, _, _) => !locked
  }

  ghost predicate SameKeysOf(keys: Keys, after: Keys, user: string) {
    && (forall id | id in keys && keys[id].user == user :: id in after && after[id] == keys[id])
    && (forall id | id in after && after[id].user == user :: id in keys && keys[id].user == user)
  }

  lemma OtherKeepsKeys(keys: Keys, policy: Policy, upper: char -> char, op: Op, user: string)
    requires ByOthers(op, user)
    ensures SameKeysOf(keys, Perform(keys, policy, upper, op), user)
  {
    var after := Perform(keys, policy, upper, op);
    forall id
      ensures id in keys && keys[id].user == user ==> id in after && after[id] == keys[id]
      ensures id in after && after[id].user == user ==> id in keys && keys[id].user == user
    {
      ChangesNeedRight(keys, policy, upper, op, id);
      if id in keys {
        StatusOnlyAdvances(keys, StatementsOf(keys, policy, upper, op), id);
      }
    }
  }

  /** Whatever others do, in any number and order, a user's keys stay as they are, and
      nobody gives him a key. */
  lemma {:induction false} OthersCannotTouch(keys: Keys, policy: Policy, upper: char -> char, ops: seq<Op>,
        user: string)
    requires forall i | 0 <= i < |ops| :: ByOthers(ops[i], user)
    ensures SameKeysOf(keys, PerformAll(keys, policy, upper, ops), user)
  {
    if ops != [] {
      var n := |ops| - 1;
      assert forall i | 0 <= i < n :: ops[..n][i] == ops[i];
      OthersCannotTouch(keys, policy, upper, ops[..n], user);
      OtherKeepsKeys(PerformAll(keys, policy, upper, ops[..n]), policy, upper, ops[n], user);
    }
  }
}

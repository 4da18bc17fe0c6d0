/** The personal key service and the maintenance pass over the stored table. Each
    method is the source's own sequence of checks and statements; its contract ties
    the new table to the run the theorems of PersonalKeys are about. */
module KeyTable {
  import opened Wrappers
  import opened Text
  import opened KeyAccess
  import opened PersonalKeys

  class Table {
    var keys: Keys

    constructor ()
      ensures keys == map[]
    {
      keys := map[];
    }

    method Create(policy: Policy, upper: char -> char, p: Principal, input: Input, id: Id, now: Instant,
          replacing: bool)
      returns (r: Result<Key, KeyError>)
      modifies this
      ensures r == CreateOutcome(old(keys), policy, upper, p, input, id, now, replacing)
      ensures keys == if r.Ok? then Apply(old(keys), Insert(id, r.value)) else old(keys)
    {
      r := NewKey(policy, upper, p, input, id, now, replacing);
      if r.Ok? {
        keys := keys[id := r.value];
      }
    }

    /** The checks before the INSERT, and the row it would insert. */
    method NewKey(policy: Policy, upper: char -> char, p: Principal, input: Input, id: Id, now: Instant,
          replacing: bool)
      returns (r: Result<Key, KeyError>)
      ensures r == CreateOutcome(keys, policy, upper, p, input, id, now, replacing)
    {
      if TrimSpace(input.name) == "" {
        return Err(NameRequired);
      }
      if |HeldBy(keys, p.userId)| >= policy.maxPerUser && !replacing {
        return Err(QuotaReached);
      }
      var scopes := Normalize(input.scopes, ForScopes);
      var channels := Normalize(input.channels, ForChannels(upper));
      var access := CheckAccess(policy, p, scopes, channels);
      if access.Some? {
        return Err(BadAccess(access.value));
      }
      r := DatedKey(policy, p, input, scopes, channels, id, now, replacing);
    }

    method DatedKey(policy: Policy, p: Principal, input: Input, scopes: seq<string>, channels: seq<string>, id: Id,
                    now: Instant, ghost replacing: bool)
      returns (r: Result<Key, KeyError>)
      requires TrimSpace(input.name) != "" && (|HeldBy(keys, p.userId)| < policy.maxPerUser || replacing)
      ensures r == NewRow(keys, policy, p, input, scopes, channels, None, id, now, replacing)
    {
      var expires := now + policy.defaultLifetime;
      if input.expiresAt.Some? {
        expires := input.expiresAt.value;
      }
      if expires < now || expires > now + policy.maxLifetime {
        return Err(BadExpiry);
      }
      if id in keys {
        return Err(IdTaken);
      }
      r := Ok(Key(p.userId, TrimSpace(input.name), scopes, channels, Active, 1, Some(expires), None, None));
    }

    method Rotate(policy: Policy, upper: char -> char, p: Principal, id: Id, newId: Id, now: Instant, parkedAt: Instant)
      returns (r: Result<Key, KeyError>)
      modifies this
      ensures r == RotateOutcome(old(keys), policy, upper, p, id, newId, now)
      ensures keys == Perform(old(keys), policy, upper, RotateKey(p, id, newId, now, parkedAt))
    {
      if id !in keys {
        return Err(NotFound);
      }
      var key := keys[id];
      if key.user != p.userId {
        return Err(AccessDenied);
      }
      if key.status != Active {
        return Err(NotActive);
      }
      ghost var before := keys;
      r := Create(policy, upper, p, Input(key.name, key.scopes, key.channels, key.expiresAt), newId, now, true);
      if r.Err? {
        return;
      }
      var graceAt := parkedAt + policy.rotationGrace;
      RunThree(before, Insert(newId, r.value), Park(id, graceAt), SetParent(newId, id));
      Execute(Park(id, graceAt));
      Execute(SetParent(newId, id));
    }

    /** One UPDATE. */
    method Execute(st: Statement)
      requires !st.Insert?
      modifies this
      ensures keys == Apply(old(keys), st)
    {
      keys := map id | id in keys :: Touch(id, keys[id], st);
    }

    method UpdateAccess(policy: Policy, upper: char -> char, p: Principal, id: Id, scopes: seq<string>,
                        channels: seq<string>, version: int)
      returns (error: Option<KeyError>)
      modifies this
      ensures error == UpdateError(old(keys), policy, upper, p, id, scopes, channels, version)
      ensures keys == Perform(old(keys), policy, upper, UpdateKey(p, id, scopes, channels, version))
    {
      if version < 1 {
        return Some(VersionRequired);
      }
      var s := Normalize(scopes, ForScopes);
      var c := Normalize(channels, ForChannels(upper));
      var access := CheckAccess(policy, p, s, c);
      if access.Some? {
        return Some(BadAccess(access.value));
      }
      if id !in keys {
        return Some(NotFound);
      }
      if keys[id].user != p.userId {
        return Some(AccessDenied);
      }
      if keys[id].status != Active {
        return Some(NotActive);
      }
      if keys[id].version != version {
        return Some(Stale);
      }
      RunOne(keys, SetAccess(id, s, c, version));
      Execute(SetAccess(id, s, c, version));
      error := None;
    }

    method Revoke(policy: Policy, upper: char -> char, p: Principal, id: Id, admin: bool)
          returns (error: Option<KeyError>)
      modifies this
      ensures error == RevokeError(old(keys), p, id, admin)
      ensures keys == Perform(old(keys), policy, upper, RevokeKey(p, id, admin))
    {
      if id !in keys {
        return Some(NotFound);
      }
      if keys[id].user != p.userId && !admin {
        return Some(AccessDenied);
      }
      if keys[id].status == Revoked {
        return Some(AlreadyRevoked);
      }
      RunOne(keys, RevokeOne(id));
      Execute(RevokeOne(id));
      error := None;
    }

    /** Afterwards none of the user's keys passes the lifecycle test again. */
    method RevokeAll(policy: Policy, upper: char -> char, user: string) returns (count: nat)
      modifies this
      ensures count == |HeldBy(old(keys), user)|
      ensures keys == Perform(old(keys), policy, upper, RevokeAllKeys(user))
      ensures forall id, t | id in keys && keys[id].user == user :: !Valid(keys[id], t)
    {
      count := |HeldBy(keys, user)|;
      RunOne(keys, RevokeUser(user));
      Execute(RevokeUser(user));
    }

    method DetachUser(policy: Policy, upper: char -> char, user: string)
      modifies this
      ensures keys == Perform(old(keys), policy, upper, Detach(user))
      ensures forall id, t | id in keys && keys[id].user == user :: !Valid(keys[id], t)
    {
      RunOne(keys, Statement.DetachUser(user));
      Execute(Statement.DetachUser(user));
    }

    method Maintain(policy: Policy, upper: char -> char, locked: bool, revokeAt: Instant, expireAt: Instant)
      modifies this
      ensures keys == Perform(old(keys), policy, upper, Op.Maintain(locked, revokeAt, expireAt))
    {
      if !locked {
        return;
      }
      RunTwo(keys, RevokeDue(revokeAt), ExpireDue(expireAt));
      Execute(RevokeDue(revokeAt));
      Execute(ExpireDue(expireAt));
    }
  }
}

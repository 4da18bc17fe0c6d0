/** How long a personal key works: from its creation until something ends it. */
module KeyLife {
  import opened Wrappers
  import opened KeyAccess
  import opened PersonalKeys
  import opened KeyOwners

  /** What ends a key, as far as this instant is concerned: a revocation, being parked
      with a grace that is over by then, and maintenance that finds its grace or its
      time over. */
  ghost predicate Ends(id: Id, key: Key, st: Statement, t: Instant) {
    match st
    case RevokeOne(i) => i == id
    case RevokeUser(user) => key.user == user
    case DetachUser(user) => key.user == user
    case Park(i, graceAt) => i == id && key.status == Active && graceAt <= t
    case RevokeDue(now) => key.status == Rotating && key.graceExpiresAt.Some? && key.graceExpiresAt.value <= now
    case ExpireDue(now) => key.expiresAt.Some? && key.expiresAt.value <= now
    case _ => false
  }

  lemma StatementEndsIff(id: Id, key: Key, st: Statement, t: Instant)
    ensures Valid(Touch(id, key, st), t) <==> Valid(key, t) && !Ends(id, key, st, t)
  {
  }

  ghost predicate EndsAt(keys: Keys, run: seq<Statement>, i: nat, id: Id, t: Instant)
    requires i < |run|
  {
    id in Run(keys, run[..i]) && Ends(id, Run(keys, run[..i])[id], run[i], t)
  }

  /** Over every interleaving of statements, a stored key is accepted for an instant
      exactly when it was so at first and no statement has ended it since. */
  lemma {:induction false} WorksUntilEnded(keys: Keys, run: seq<Statement>, id: Id, t: Instant)
    requires id in keys
    ensures id in Run(keys, run)
    ensures Valid(Run(keys, run)[id], t)
       <==> Valid(keys[id], t) && forall i | 0 <= i < |run| :: !EndsAt(keys, run, i, id, t)
  {
    if run != [] {
      var n := |run| - 1;
      var front := run[..n];
      WorksUntilEnded(keys, front, id, t);
      RowAfter(Run(keys, front), run[n], id);
      StatementEndsIff(id, Run(keys, front)[id], run[n], t);
      forall i | 0 <= i < n
        ensures EndsAt(keys, run, i, id, t) <==> EndsAt(keys, front, i, id, t)
      {
        assert front[..i] == run[..i];
      }
      assert EndsAt(keys, run, n, id, t) <==> Ends(id, Run(keys, front)[id], run[n], t);
      if forall i | 0 <= i < n :: !EndsAt(keys, front, i, id, t) {
        assert forall i | 0 <= i < n :: !EndsAt(keys, run, i, id, t);
      } else {
        var i :| 0 <= i < n && EndsAt(keys, front, i, id, t);
        assert EndsAt(keys, run, i, id, t);
      }
    }
  }

  /** A key just created is accepted up to the expiry asked for, that instant included. */
  lemma CreatedKeyWorks(keys: Keys, policy: Policy, upper: char -> char, p: Principal, input: Input, id: Id,
                        now: Instant, t: Instant)
    requires Acceptable(policy, upper, p, input, now) && id !in keys && |LiveKeys(keys, p.userId)| < policy.maxPerUser
    ensures var after := Perform(keys, policy, upper, CreateKey(p, input, id, now));
            id in after && (Valid(after[id], t) <==> t <= ExpiryAsked(policy, input, now))
  {
    CreationIff(keys, policy, upper, p, input, id, now);
  }

  /** After a rotation the new key is accepted up to the old one's expiry, the old one
      up to the same and before the end of its grace. */
  lemma RotatedKeysWork(keys: Keys, policy: Policy, upper: char -> char, op: Op, t: Instant)
    requires op.RotateKey? && RotateOutcome(keys, policy, upper, op.p, op.id, op.newId, op.now).Ok?
    requires op.id in keys && IsNormal(upper, keys[op.id].scopes, keys[op.id].channels) && keys[op.id].expiresAt.Some?
    ensures var after, expiry := Perform(keys, policy, upper, op), keys[op.id].expiresAt.value;
            && op.id in after && op.newId in after
            && (Valid(after[op.newId], t) <==> t <= expiry)
            && (Valid(after[op.id], t) <==> t <= expiry && t < op.parkedAt + policy.rotationGrace)
  {
    RotationHandsOver(keys, policy, upper, op, t);
    var row := RotateOutcome(keys, policy, upper, op.p, op.id, op.newId, op.now).value;
    RotatedRow(keys, policy, upper, op, row);
  }

  /** A key revoked is never accepted again. */
  lemma {:induction false} RevokedKeyFails(keys: Keys, policy: Policy, upper: char -> char, p: Principal, id: Id, admin: bool,
                        run: seq<Statement>, t: Instant)
    requires RevokeError(keys, p, id, admin) == None
    ensures var after := Perform(keys, policy, upper, RevokeKey(p, id, admin));
            id in after && id in Run(after, run) && !Valid(Run(after, run)[id], t)
  {
    RevocationIff(keys, policy, upper, p, id, admin);
    RunOnlyWeakens(Perform(keys, policy, upper, RevokeKey(p, id, admin)), run, id, t);
  }
}

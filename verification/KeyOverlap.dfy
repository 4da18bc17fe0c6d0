/** Creations and rotations that overlap: all decided on the same table before any of
    them wrote to it, their statements then run in any order. */
module KeyOverlap {
  import opened Wrappers
  import opened Text
  import opened KeyAccess
  import opened PersonalKeys

  predicate Adds(op: Op) {
    op.CreateKey? || op.RotateKey?
  }

  function NewId(op: Op): Id
    requires Adds(op)
  {
    match op
    case CreateKey(_, _, id, _) => id
    case RotateKey(_, _, newId, _, _) => newId
  }

  /** The row the operation inserts, or why it is refused. */
  function Decision(keys: Keys, policy: Policy, upper: char -> char, op: Op): Result<Key, KeyError>
    requires Adds(op)
  {
    match op
    case CreateKey(p, input, id, now) => CreateOutcome(keys, policy, upper, p, input, id, now, false)
    case RotateKey(p, id, newId, now, _) => RotateOutcome(keys, policy, upper, p, id, newId, now)
  }

  /** What is known of an accepted operation and of the row it inserts. */
  lemma AcceptedRow(keys: Keys, policy: Policy, upper: char -> char, op: Op)
    requires Adds(op) && Decision(keys, policy, upper, op).Ok?
    ensures var row := Decision(keys, policy, upper, op).value;
            NewId(op) !in keys && row.user == op.p.userId && row.status == Active
    ensures op.RotateKey? ==> op.id in keys && keys[op.id].user == op.p.userId && keys[op.id].status == Active
  {
    if op.RotateKey? {
      RotatedRow(keys, policy, upper, op, Decision(keys, policy, upper, op).value);
    } else {
      CreatedRow(keys, policy, upper, op.p, op.input, op.id, op.now, false);
    }
  }

  lemma StatementsOfAddition(keys: Keys, policy: Policy, upper: char -> char, op: Op)
    requires Adds(op)
    ensures var decision := Decision(keys, policy, upper, op);
            StatementsOf(keys, policy, upper, op)
            == if decision.Err? then []
               else if op.CreateKey? then [Insert(NewId(op), decision.value)]
               else [Insert(NewId(op), decision.value), Park(op.id, op.parkedAt + policy.rotationGrace), SetParent(op.newId, op.id)]
  {
  }

  /** The operations read the same table and bring new ids, no two the same. */
  ghost predicate Overlap(ops: seq<Op>) {
    && (forall i | 0 <= i < |ops| :: Adds(ops[i]))
    && (forall i, j | 0 <= i < j < |ops| :: NewId(ops[i]) != NewId(ops[j]))
  }

  /** run holds the statements of the operations, in any order. */
  ghost predicate Interleaves(keys: Keys, policy: Policy, upper: char -> char, ops: seq<Op>, run: seq<Statement>) {
    forall st :: st in run <==> Issued(keys, policy, upper, ops, st)
  }

  ghost predicate Issued(keys: Keys, policy: Policy, upper: char -> char, ops: seq<Op>, st: Statement) {
    exists i :: 0 <= i < |ops| && st in StatementsOf(keys, policy, upper, ops[i])
  }

  /** The user's operations that are not refused. */
  function Accepted(keys: Keys, policy: Policy, upper: char -> char, ops: seq<Op>, user: string): set<nat>
    requires forall i | 0 <= i < |ops| :: Adds(ops[i])
  {
    set i: nat | i < |ops| && Adds(ops[i]) && ops[i].p.userId == user && Decision(keys, policy, upper, ops[i]).Ok?
  }

  function IdsOf(ops: seq<Op>, indices: set<nat>): set<Id>
    requires forall i | i in indices :: i < |ops| && Adds(ops[i])
  {
    set i | i in indices :: NewId(ops[i])
  }

  /** The ids they insert. */
  function Added(keys: Keys, policy: Policy, upper: char -> char, ops: seq<Op>, user: string): set<Id>
    requires forall i | 0 <= i < |ops| :: Adds(ops[i])
  {
    IdsOf(ops, Accepted(keys, policy, upper, ops, user))
  }

  lemma {:induction false} AsManyIds(ops: seq<Op>, indices: set<nat>)
    requires Overlap(ops) && forall i | i in indices :: i < |ops|
    ensures |IdsOf(ops, indices)| == |indices|
  {
    if indices != {} {
      var i :| i in indices;
      var rest := indices - {i};
      AsManyIds(ops, rest);
      assert indices == rest + {i};
      assert NewId(ops[i]) !in IdsOf(ops, rest);
      assert IdsOf(ops, indices) == IdsOf(ops, rest) + {NewId(ops[i])};
    }
  }

  /** The keys that the user's accepted rotations replace. Two rotations may replace
      the same one. */
  function Replaced(keys: Keys, policy: Policy, upper: char -> char, ops: seq<Op>, user: string): set<Id>
    requires forall i | 0 <= i < |ops| :: Adds(ops[i])
  {
    set i | i in Accepted(keys, policy, upper, ops, user) && ops[i].RotateKey? :: ops[i].id
  }

  // ----- One row over a run -----

  predicate Parks(run: seq<Statement>, id: Id) {
    exists i :: 0 <= i < |run| && run[i].Park? && run[i].id == id
  }

  predicate Inserts(run: seq<Statement>, id: Id) {
    exists i :: 0 <= i < |run| && run[i].Insert? && run[i].id == id
  }

  predicate Additive(run: seq<Statement>) {
    forall i | 0 <= i < |run| :: run[i].Insert? || run[i].Park? || run[i].SetParent?
  }

  lemma LastStatement(run: seq<Statement>, id: Id)
    requires run != [] && Additive(run)
    ensures var before, last := run[..|run| - 1], run[|run| - 1];
            && Additive(before)
            && (Parks(run, id) <==> Parks(before, id) || (last.Park? && last.id == id))
            && (Inserts(run, id) <==> Inserts(before, id) || (last.Insert? && last.id == id))
  {
    var n := |run| - 1;
    var before, last := run[..n], run[n];
    assert run == before + [last];
    if Parks(before, id) {
      var i :| 0 <= i < n && before[i].Park? && before[i].id == id;
      assert run[i].Park?;
    }
    if Inserts(before, id) {
      var i :| 0 <= i < n && before[i].Insert? && before[i].id == id;
      assert run[i].Insert?;
    }
  }

  /** A row that was there stays active unless the run parks it. */
  lemma {:induction false} OldRow(keys: Keys, run: seq<Statement>, id: Id)
    requires id in keys && Additive(run)
    ensures id in Run(keys, run) && Run(keys, run)[id].user == keys[id].user
    ensures Run(keys, run)[id].status == Active <==> keys[id].status == Active && !Parks(run, id)
  {
    if run != [] {
      var before, last := run[..|run| - 1], run[|run| - 1];
      LastStatement(run, id);
      OldRow(keys, before, id);
      if !last.Insert? {
        RowAfter(Run(keys, before), last, id);
      }
    }
  }

  /** A new row is active, whenever it is inserted, since nothing parks it. */
  lemma {:induction false} NewRowIsActive(keys: Keys, run: seq<Statement>, id: Id, user: string)
    requires id !in keys && Additive(run) && !Parks(run, id)
    requires forall i | 0 <= i < |run| && run[i].Insert? && run[i].id == id :: run[i].key.user == user && run[i].key.status == Active
    ensures id in Run(keys, run) <==> Inserts(run, id)
    ensures id in Run(keys, run) ==> Run(keys, run)[id].user == user && Run(keys, run)[id].status == Active
  {
    if run != [] {
      var before, last := run[..|run| - 1], run[|run| - 1];
      LastStatement(run, id);
      forall i | 0 <= i < |before| && before[i].Insert? && before[i].id == id
        ensures before[i].key.user == user && before[i].key.status == Active
      {
        assert before[i] == run[i];
      }
      NewRowIsActive(keys, before, id, user);
    }
  }

  // ----- The statements of overlapping operations -----

  lemma RunIsAdditive(keys: Keys, policy: Policy, upper: char -> char, ops: seq<Op>, run: seq<Statement>)
    requires Overlap(ops) && Interleaves(keys, policy, upper, ops, run)
    ensures Additive(run)
  {
    forall k | 0 <= k < |run|
      ensures run[k].Insert? || run[k].Park? || run[k].SetParent?
    {
      assert run[k] in run;
      var i :| 0 <= i < |ops| && run[k] in StatementsOf(keys, policy, upper, ops[i]);
      StatementsOfAddition(keys, policy, upper, ops[i]);
    }
  }

  /** A key is parked exactly when one of the accepted rotations replaces it. */
  lemma ParkedIff(keys: Keys, policy: Policy, upper: char -> char, ops: seq<Op>, run: seq<Statement>, id: Id)
    requires Overlap(ops) && Interleaves(keys, policy, upper, ops, run)
    ensures Parks(run, id) <==> id in keys && id in Replaced(keys, policy, upper, ops, keys[id].user)
  {
    if Parks(run, id) {
      var k :| 0 <= k < |run| && run[k].Park? && run[k].id == id;
      assert run[k] in run;
      var i :| 0 <= i < |ops| && run[k] in StatementsOf(keys, policy, upper, ops[i]);
      StatementsOfAddition(keys, policy, upper, ops[i]);
      AcceptedRow(keys, policy, upper, ops[i]);
    }
    if id in keys && id in Replaced(keys, policy, upper, ops, keys[id].user) {
      var i :| 0 <= i < |ops| && ops[i].RotateKey? && Decision(keys, policy, upper, ops[i]).Ok? && ops[i].id == id;
      StatementsOfAddition(keys, policy, upper, ops[i]);
      var park := StatementsOf(keys, policy, upper, ops[i])[1];
      assert Issued(keys, policy, upper, ops, park);
      assert park in run;
    }
  }

  lemma ReplacedIsActive(keys: Keys, policy: Policy, upper: char -> char, ops: seq<Op>, user: string)
    requires Overlap(ops)
    ensures Replaced(keys, policy, upper, ops, user) <= ActiveOf(keys, user)
  {
    forall id | id in Replaced(keys, policy, upper, ops, user)
      ensures id in ActiveOf(keys, user)
    {
      var i :| 0 <= i < |ops| && ops[i].RotateKey? && ops[i].p.userId == user && Decision(keys, policy, upper, ops[i]).Ok?
               && ops[i].id == id;
      AcceptedRow(keys, policy, upper, ops[i]);
    }
  }

  lemma AddedIsNew(keys: Keys, policy: Policy, upper: char -> char, ops: seq<Op>, user: string)
    requires Overlap(ops)
    ensures forall id | id in Added(keys, policy, upper, ops, user) :: id !in keys
  {
    forall id | id in Added(keys, policy, upper, ops, user)
      ensures id !in keys
    {
      var i :| 0 <= i < |ops| && ops[i].p.userId == user && Decision(keys, policy, upper, ops[i]).Ok? && NewId(ops[i]) == id;
      AcceptedRow(keys, policy, upper, ops[i]);
    }
  }

  /** The operation that inserts an id. */
  lemma InsertedBy(keys: Keys, policy: Policy, upper: char -> char, ops: seq<Op>, run: seq<Statement>,
        k: nat) returns (i: nat)
    requires Overlap(ops) && Interleaves(keys, policy, upper, ops, run) && k < |run| && run[k].Insert?
    ensures i < |ops| && NewId(ops[i]) == run[k].id && Decision(keys, policy, upper, ops[i]) == Ok(run[k].key)
    ensures run[k].id !in keys && run[k].key.user == ops[i].p.userId && run[k].key.status == Active
  {
    assert run[k] in run;
    i :| 0 <= i < |ops| && run[k] in StatementsOf(keys, policy, upper, ops[i]);
    StatementsOfAddition(keys, policy, upper, ops[i]);
    AcceptedRow(keys, policy, upper, ops[i]);
  }

  lemma AddedIsInserted(keys: Keys, policy: Policy, upper: char -> char, ops: seq<Op>, run: seq<Statement>, i: nat)
    requires Overlap(ops) && Interleaves(keys, policy, upper, ops, run)
    requires i < |ops| && Decision(keys, policy, upper, ops[i]).Ok?
    ensures Inserts(run, NewId(ops[i]))
  {
    StatementsOfAddition(keys, policy, upper, ops[i]);
    var insert := StatementsOf(keys, policy, upper, ops[i])[0];
    assert Issued(keys, policy, upper, ops, insert);
    assert insert in run;
  }

  lemma {:induction false} NewRows(keys: Keys, policy: Policy, upper: char -> char, ops: seq<Op>,
        run: seq<Statement>, id: Id, user: string)
    requires Overlap(ops) && Interleaves(keys, policy, upper, ops, run) && id !in keys
    ensures id in ActiveOf(Run(keys, run), user) <==> id in Added(keys, policy, upper, ops, user)
  {
    RunIsAdditive(keys, policy, upper, ops, run);
    ParkedIff(keys, policy, upper, ops, run, id);
    if k: nat :| k < |run| && run[k].Insert? && run[k].id == id {
      var i := InsertedBy(keys, policy, upper, ops, run, k);
      forall m: nat | m < |run| && run[m].Insert? && run[m].id == id
        ensures run[m].key.user == ops[i].p.userId && run[m].key.status == Active
      {
        var j := InsertedBy(keys, policy, upper, ops, run, m);
        assert i == j;
      }
      NewRowIsActive(keys, run, id, ops[i].p.userId);
      OnlyAdderIsTheUser(keys, policy, upper, ops, i, user);
    } else {
      assert !Inserts(run, id);
      NewRowIsActive(keys, run, id, user);
      if id in Added(keys, policy, upper, ops, user) {
        var i :| 0 <= i < |ops| && Decision(keys, policy, upper, ops[i]).Ok? && NewId(ops[i]) == id;
        AddedIsInserted(keys, policy, upper, ops, run, i);
      }
    }
  }

  lemma OnlyAdderIsTheUser(keys: Keys, policy: Policy, upper: char -> char, ops: seq<Op>, i: nat, user: string)
    requires Overlap(ops) && i < |ops| && Decision(keys, policy, upper, ops[i]).Ok?
    ensures NewId(ops[i]) in Added(keys, policy, upper, ops, user) <==> ops[i].p.userId == user
  {
    var accepted := Accepted(keys, policy, upper, ops, user);
    if NewId(ops[i]) in IdsOf(ops, accepted) {
      var j :| j in accepted && NewId(ops[j]) == NewId(ops[i]);
      assert i == j;
    }
    if ops[i].p.userId == user {
      assert i in accepted;
    }
  }

  /** Whatever the order of their statements, overlapping operations turn every key
      that any of them replaces over once, and every one of them adds a key. */
  lemma {:induction false} OverlapActive(keys: Keys, policy: Policy, upper: char -> char, ops: seq<Op>,
        run: seq<Statement>, user: string)
    requires Overlap(ops) && Interleaves(keys, policy, upper, ops, run)
    ensures ActiveOf(Run(keys, run), user)
         == ActiveOf(keys, user) - Replaced(keys, policy, upper, ops, user) + Added(keys, policy, upper, ops, user)
  {
    RunIsAdditive(keys, policy, upper, ops, run);
    AddedIsNew(keys, policy, upper, ops, user);
    forall id
      ensures id in ActiveOf(Run(keys, run), user)
         <==> id in ActiveOf(keys, user) - Replaced(keys, policy, upper, ops, user) + Added(keys, policy, upper, ops, user)
    {
      if id in keys {
        OldRow(keys, run, id);
        ParkedIff(keys, policy, upper, ops, run, id);
      } else {
        NewRows(keys, policy, upper, ops, run, id, user);
      }
    }
  }

  /** So overlapping operations put a user over the quota exactly when the accepted
      ones outnumber the different keys they replace by more than the quota has left. */
  lemma {:induction false} OverrunIff(keys: Keys, policy: Policy, upper: char -> char, ops: seq<Op>,
        run: seq<Statement>, user: string)
    requires Overlap(ops) && Interleaves(keys, policy, upper, ops, run)
    ensures |ActiveOf(Run(keys, run), user)| > policy.maxPerUser
       <==> |Accepted(keys, policy, upper, ops, user)| - |Replaced(keys, policy, upper, ops, user)|
            > policy.maxPerUser - |ActiveOf(keys, user)|
  {
    OverlapActive(keys, policy, upper, ops, run, user);
    AsManyIds(ops, Accepted(keys, policy, upper, ops, user));
    AddedIsNew(keys, policy, upper, ops, user);
    ReplacedIsActive(keys, policy, upper, ops, user);
    Sizes(ActiveOf(keys, user), Replaced(keys, policy, upper, ops, user), Added(keys, policy, upper, ops, user));
  }

  lemma Sizes<T>(a: set<T>, b: set<T>, c: set<T>)
    requires b <= a && a !! c
    ensures |a - b + c| == |a| - |b| + |c|
  {
    assert a == a - b + b;
  }

  function Growth(one: Op, two: Op): int
    requires Adds(one) && Adds(two)
  {
    if one.CreateKey? && two.CreateKey? then 2
    else if one.RotateKey? && two.RotateKey? && one.id != two.id then 0
    else 1
  }

  /** Two creations need room for two; two rotations need room for one when they
      rotate the same key. */
  lemma {:induction false} TwoAdditionsOverrunIff(keys: Keys, policy: Policy, upper: char -> char, one: Op, two: Op,
        run: seq<Statement>)
    requires Adds(one) && Adds(two) && NewId(one) != NewId(two) && one.p.userId == two.p.userId
    requires Decision(keys, policy, upper, one).Ok? && Decision(keys, policy, upper, two).Ok?
    requires Interleaves(keys, policy, upper, [one, two], run)
    ensures |ActiveOf(Run(keys, run), one.p.userId)| > policy.maxPerUser
       <==> |ActiveOf(keys, one.p.userId)| + Growth(one, two) > policy.maxPerUser
  {
    var ops, user := [one, two], one.p.userId;
    OverrunIff(keys, policy, upper, ops, run, user);
    AcceptedOfTwo(keys, policy, upper, one, two);
    ReplacedOfTwo(keys, policy, upper, one, two);
  }

  lemma PairSize<T>(a: T, b: T)
    ensures |{a, b}| == if a == b then 1 else 2
  {
    if a == b {
      assert {a, b} == {a};
    }
  }

  lemma AcceptedOfTwo(keys: Keys, policy: Policy, upper: char -> char, one: Op, two: Op)
    requires Adds(one) && Adds(two) && one.p.userId == two.p.userId
    requires Decision(keys, policy, upper, one).Ok? && Decision(keys, policy, upper, two).Ok?
    ensures Accepted(keys, policy, upper, [one, two], one.p.userId) == {0, 1}
  {
    var ops := [one, two];
    assert ops[0] == one && ops[1] == two;
  }

  ghost predicate RotatedByEither(one: Op, two: Op, id: Id) {
    (one.RotateKey? && one.id == id) || (two.RotateKey? && two.id == id)
  }

  lemma ReplacedByEither(keys: Keys, policy: Policy, upper: char -> char, one: Op, two: Op, id: Id)
    requires Adds(one) && Adds(two) && one.p.userId == two.p.userId
    requires Decision(keys, policy, upper, one).Ok? && Decision(keys, policy, upper, two).Ok?
    ensures id in Replaced(keys, policy, upper, [one, two], one.p.userId) <==> RotatedByEither(one, two, id)
  {
    var ops, user := [one, two], one.p.userId;
    AcceptedOfTwo(keys, policy, upper, one, two);
    assert ops[0] == one && ops[1] == two;
    assert 0 in Accepted(keys, policy, upper, ops, user) && 1 in Accepted(keys, policy, upper, ops, user);
  }

  lemma SizeOfEither(one: Op, two: Op, replaced: set<Id>)
    requires Adds(one) && Adds(two) && forall id :: id in replaced <==> RotatedByEither(one, two, id)
    ensures |replaced| == 2 - Growth(one, two)
  {
    if one.RotateKey? && two.RotateKey? {
      PairSize(one.id, two.id);
      assert replaced == {one.id, two.id};
    } else if one.RotateKey? {
      assert replaced == {one.id};
    } else if two.RotateKey? {
      assert replaced == {two.id};
    } else {
      assert replaced == {};
    }
  }

  lemma ReplacedOfTwo(keys: Keys, policy: Policy, upper: char -> char, one: Op, two: Op)
    requires Adds(one) && Adds(two) && one.p.userId == two.p.userId
    requires Decision(keys, policy, upper, one).Ok? && Decision(keys, policy, upper, two).Ok?
    ensures |Replaced(keys, policy, upper, [one, two], one.p.userId)| == 2 - Growth(one, two)
  {
    var replaced := Replaced(keys, policy, upper, [one, two], one.p.userId);
    forall id
      ensures id in replaced <==> RotatedByEither(one, two, id)
    {
      ReplacedByEither(keys, policy, upper, one, two, id);
    }
    SizeOfEither(one, two, replaced);
  }

  /** One after the other is one such run. */
  lemma OneThenTheOther(keys: Keys, policy: Policy, upper: char -> char, one: Op, two: Op)
    ensures Interleaves(keys, policy, upper, [one, two],
                        StatementsOf(keys, policy, upper, one) + StatementsOf(keys, policy, upper, two))
  {
    var ops := [one, two];
    assert ops[0] == one && ops[1] == two;
  }

  // ----- A run over the quota in which nothing is created -----

  const POLICY := Policy(1, true, true, 10, 10, 5, ["customer:read"])

  const OWNER := Principal("u", true, {}, None)

  const HELD := Key("u", "n", ["customer:read"], ["REST"], Active, 1, Some(10), None, None)

  const FIRST := RotateKey(OWNER, "k", "a", 0, 0)

  const SECOND := RotateKey(OWNER, "k", "b", 0, 0)

  lemma HeldIsNormal(upper: char -> char)
    requires KeepsCapitals(upper)
    ensures TrimSpace("n") == "n" && Normalized(HELD.scopes, ForScopes) == HELD.scopes
    ensures Normalized(HELD.channels, ForChannels(upper)) == HELD.channels
  {
    TrimKeeps("n");
    TrimKeeps("customer:read");
    CleanNames(upper);
    NormalizedKeeps(HELD.scopes, ForScopes);
    NormalizedKeeps(HELD.channels, ForChannels(upper));
  }

  lemma RotationIsAccepted(upper: char -> char, newId: Id)
    requires KeepsCapitals(upper) && newId != "k"
    ensures RotateOutcome(map["k" := HELD], POLICY, upper, OWNER, "k", newId, 0) == Ok(HELD)
  {
    HeldIsNormal(upper);
    GrantedIff(POLICY, OWNER, HELD.scopes, HELD.channels);
  }

  /** With a quota of one, two overlapping rotations of the only key end over it. */
  lemma TwoRotationsOverrun(upper: char -> char)
    requires KeepsCapitals(upper)
    ensures var keys: Keys := map["k" := HELD];
            var run := StatementsOf(keys, POLICY, upper, FIRST) + StatementsOf(keys, POLICY, upper, SECOND);
            |ActiveOf(keys, "u")| <= POLICY.maxPerUser < |ActiveOf(Run(keys, run), "u")|
  {
    var keys: Keys := map["k" := HELD];
    assert ActiveOf(keys, "u") == {"k"};
    RotationIsAccepted(upper, "a");
    RotationIsAccepted(upper, "b");
    OneThenTheOther(keys, POLICY, upper, FIRST, SECOND);
    TwoAdditionsOverrunIff(keys, POLICY, upper, FIRST, SECOND,
                           StatementsOf(keys, POLICY, upper, FIRST) + StatementsOf(keys, POLICY, upper, SECOND));
  }
}

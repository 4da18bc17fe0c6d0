/** The version of a contract as an optimistic lock: every change raises it, so an
    activation goes through exactly when nothing has changed the contract since the
    client looked at it. */
module ContractVersions {
  import opened Wrappers
  import opened Calendar
  import opened RevenueSchedule
  import opened ContractLedger

  /** b is what a has become: the same, or of a higher version. */
  predicate Later(a: Contract, b: Contract) {
    b == a || b.version > a.version
  }

  lemma {:induction false} MergeRaisesVersion(l: Ledger, target: Id, sources: seq<Id>, c: Id)
    requires c in l.contracts
    ensures c in MergedAll(l, target, sources).contracts
    ensures Later(l.contracts[c], MergedAll(l, target, sources).contracts[c])
    ensures MergedAll(l, target, sources).activations == l.activations
  {
    if sources != [] {
      MergeRaisesVersion(l, target, sources[..|sources| - 1], c);
    }
  }

  /** A merge hands over just the contracts of its sources, each once. */
  lemma {:induction false} MergeMovesOnce(l: Ledger, target: Id, sources: seq<Id>, c: Id)
    requires target !in sources && c in l.contracts
    ensures c in MergedAll(l, target, sources).contracts
    ensures var now := l.contracts[c];
            MergedAll(l, target, sources).contracts[c]
            == if now.customer in sources then now.(customer := target, version := now.version + 1) else now
  {
    if sources != [] {
      var before, last := sources[..|sources| - 1], sources[|sources| - 1];
      assert sources == before + [last];
      MergeMovesOnce(l, target, before, c);
    }
  }

  lemma CreationKeepsContracts(l: Ledger, input: ContractInput, c: Id)
    requires IdsAreUsed(l) && c in l.contracts
    ensures c in Created(l, input).contracts && Created(l, input).contracts[c] == l.contracts[c]
    ensures Created(l, input).activations == l.activations
  {
  }

  lemma ActivatedContracts(l: Ledger, client: Id)
    ensures || Activated(l, client).contracts == l.contracts
            || (&& client in l.activations
                && var id := l.activations[client].contract;
                && id in l.contracts
                && Activated(l, client).contracts
                   == l.contracts[id := l.contracts[id].(status := Active, version := l.contracts[id].version + 1)])
  {
    if client in l.activations {
      var a := l.activations[client];
      if ActivationGuard(l, a) && a.before.Schedule().Ok? {
        assert Activated(l, client) == WithSchedule(Started(l, client, a.contract), a.contract, a.before, l.nextId);
        assert WithSchedule(Started(l, client, a.contract), a.contract, a.before, l.nextId).contracts
            == Started(l, client, a.contract).contracts;
      }
    }
  }

  lemma ActivationRaisesVersion(l: Ledger, client: Id, c: Id)
    requires c in l.contracts
    ensures c in Activated(l, client).contracts && Later(l.contracts[c], Activated(l, client).contracts[c])
  {
    ActivatedContracts(l, client);
  }

  /** Whoever changes a contract raises its version. */
  lemma StepRaisesVersion(l: Ledger, step: Step, c: Id)
    requires IdsAreUsed(l) && c in l.contracts
    ensures c in Apply(l, step).contracts && Later(l.contracts[c], Apply(l, step).contracts[c])
  {
    match step
    case Create(input) => CreationKeepsContracts(l, input, c);
    case CommitActivation(client) => ActivationRaisesVersion(l, client, c);
    case Merge(target, sources) => MergeRaisesVersion(l, target, sources, c);
    case _ =>
  }

  // ----- Runs from any consistent ledger -----

  lemma {:induction false} RunStaysConsistent(l: Ledger, steps: seq<Step>)
    requires Inv(l)
    ensures Inv(Run(l, steps))
  {
    if steps != [] {
      RunStaysConsistent(l, steps[..|steps| - 1]);
      StepKeepsInv(Run(l, steps[..|steps| - 1]), steps[|steps| - 1]);
    }
  }

  lemma {:induction false} RunRaisesVersion(l: Ledger, steps: seq<Step>, c: Id)
    requires Inv(l) && c in l.contracts
    ensures c in Run(l, steps).contracts && Later(l.contracts[c], Run(l, steps).contracts[c])
  {
    if steps != [] {
      var before := steps[..|steps| - 1];
      RunRaisesVersion(l, before, c);
      RunStaysConsistent(l, before);
      StepRaisesVersion(Run(l, before), steps[|steps| - 1], c);
    }
  }

  /** The i-th step of the run leaves contract c as it finds it. */
  ghost predicate Leaves(l: Ledger, steps: seq<Step>, i: nat, c: Id)
    requires i < |steps|
  {
    var now := Run(l, steps[..i]);
    c in now.contracts && c in Apply(now, steps[i]).contracts && Apply(now, steps[i]).contracts[c] == now.contracts[c]
  }

  lemma {:induction false} NothingChangedIff(l: Ledger, steps: seq<Step>, c: Id)
    requires Inv(l) && c in l.contracts
    ensures c in Run(l, steps).contracts
    ensures Run(l, steps).contracts[c] == l.contracts[c] <==> forall i | 0 <= i < |steps| :: Leaves(l, steps, i, c)
  {
    if steps != [] {
      var n := |steps| - 1;
      NothingChangedIff(l, steps[..n], c);
      RunRaisesVersion(l, steps[..n], c);
      RunStaysConsistent(l, steps[..n]);
      StepRaisesVersion(Run(l, steps[..n]), steps[n], c);
      forall i | 0 <= i < n
        ensures Leaves(l, steps[..n], i, c) <==> Leaves(l, steps, i, c)
      {
        assert steps[..n][..i] == steps[..i];
      }
      assert Leaves(l, steps, n, c) <==> Run(l, steps).contracts[c] == Run(l, steps[..n]).contracts[c];
    }
  }

  // ----- Activation -----

  /** A step of the client's own activation. */
  predicate OwnActivation(step: Step, client: Id) {
    (step.BeginActivation? || step.CommitActivation?) && step.client == client
  }

  lemma StepKeepsPending(l: Ledger, step: Step, client: Id)
    requires IdsAreUsed(l) && client in l.activations && !OwnActivation(step, client)
    ensures client in Apply(l, step).activations && Apply(l, step).activations[client] == l.activations[client]
  {
    match step
    case Create(input) => CreationKeepsActivations(l, input);
    case CommitActivation(other) => ActivationKeepsOthers(l, other);
    case Merge(target, sources) => MergeKeepsActivations(l, target, sources);
    case _ =>
  }

  lemma CreationKeepsActivations(l: Ledger, input: ContractInput)
    ensures Created(l, input).activations == l.activations
  {
  }

  lemma ActivationKeepsOthers(l: Ledger, client: Id)
    ensures Activated(l, client).activations == l.activations - {client}
  {
  }

  lemma {:induction false} MergeKeepsActivations(l: Ledger, target: Id, sources: seq<Id>)
    ensures MergedAll(l, target, sources).activations == l.activations
  {
    if sources != [] {
      MergeKeepsActivations(l, target, sources[..|sources| - 1]);
    }
  }

  lemma {:induction false} RunKeepsPending(l: Ledger, steps: seq<Step>, client: Id)
    requires Inv(l) && client in l.activations && forall i | 0 <= i < |steps| :: !OwnActivation(steps[i], client)
    ensures client in Run(l, steps).activations && Run(l, steps).activations[client] == l.activations[client]
  {
    if steps != [] {
      var n := |steps| - 1;
      assert forall i | 0 <= i < n :: steps[..n][i] == steps[i];
      RunKeepsPending(l, steps[..n], client);
      RunStaysConsistent(l, steps[..n]);
      StepKeepsPending(Run(l, steps[..n]), steps[n], client);
    }
  }

  /** The step turns the DRAFT c into an ACTIVE contract and writes its rows. */
  ghost predicate Activates(l: Ledger, step: Step, c: Id) {
    var m := Apply(l, step);
    && c in l.contracts && l.contracts[c].status == Draft
    && c in m.contracts && m.contracts[c].status == Active
    && PlanOf(m, c) != map[]
  }

  /** A contract that a client may ask to activate. */
  ghost predicate Activatable(l: Ledger, c: Id) {
    c in l.contracts && l.contracts[c].status == Draft && l.contracts[c].Schedule().Ok?
  }

  ghost function Begun(l: Ledger, client: Id, c: Id, version: nat): Ledger {
    Apply(l, BeginActivation(client, c, version))
  }

  lemma BegunRemembers(l: Ledger, client: Id, c: Id, version: nat)
    requires Activatable(l, c)
    ensures var m := Begun(l, client, c, version);
            && m.contracts == l.contracts && client in m.activations
            && m.activations[client]
               == Activation(c, if version == 0 then l.contracts[c].version else version, l.contracts[c])
  {
  }

  ghost predicate WritesRows(l: Ledger, client: Id, c: Id) {
    var m := Activated(l, client);
    c in m.contracts && m.contracts[c].status == Active && PlanOf(m, c) != map[]
  }

  lemma ActivationWritesRows(l: Ledger, client: Id, c: Id)
    requires Inv(l) && client in l.activations && ActivationGuard(l, l.activations[client])
    requires l.activations[client].contract == c
    ensures WritesRows(l, client, c)
  {
    var p := ActivatedPlan(l, client);
    ActivationKeepsInv(l, client);
    assert ContractOk(Activated(l, client), c);
    assert HasEntry(PlanOf(Activated(l, client), c), 1);
  }

  /** The commit of a pending read: the guard is that the contract is a DRAFT of the
      version remembered. */
  lemma GuardDecides(l: Ledger, client: Id, c: Id, version: nat)
    requires c in l.contracts && client in l.activations
    requires l.activations[client].contract == c && l.activations[client].version == version
    requires ActivationGuard(l, l.activations[client]) ==> WritesRows(l, client, c)
    ensures Activates(l, CommitActivation(client), c)
       <==> l.contracts[c].status == Draft && l.contracts[c].version == version
    ensures !Activates(l, CommitActivation(client), c) ==>
              Apply(l, CommitActivation(client)) == l.(activations := l.activations - {client})
  {
  }

  lemma CommitOfPending(l: Ledger, client: Id, c: Id, version: nat)
    requires Inv(l) && c in l.contracts && client in l.activations
    requires l.activations[client].contract == c && l.activations[client].version == version
    ensures Activates(l, CommitActivation(client), c)
       <==> l.contracts[c].status == Draft && l.contracts[c].version == version
    ensures !Activates(l, CommitActivation(client), c) ==>
              Apply(l, CommitActivation(client)) == l.(activations := l.activations - {client})
  {
    if ActivationGuard(l, l.activations[client]) {
      ActivationWritesRows(l, client, c);
    }
    GuardDecides(l, client, c, version);
  }

  /** What the commit will find: the pending read as it was, the contract as the
      others have left it. */
  lemma {:induction false} AtTheCommit(l: Ledger, client: Id, c: Id, version: nat, others: seq<Step>)
    requires Inv(l) && Activatable(l, c) && forall i | 0 <= i < |others| :: !OwnActivation(others[i], client)
    ensures var now := Run(Begun(l, client, c, version), others);
            && Inv(now) && c in now.contracts && Later(l.contracts[c], now.contracts[c])
            && client in now.activations && now.activations[client].contract == c
            && now.activations[client].version == if version == 0 then l.contracts[c].version else version
  {
    var begun := Begun(l, client, c, version);
    StepKeepsInv(l, BeginActivation(client, c, version));
    BegunRemembers(l, client, c, version);
    RunStaysConsistent(begun, others);
    RunRaisesVersion(begun, others, c);
    RunKeepsPending(begun, others, client);
  }

  /** Without a version of its own, a client's activation goes through if and only if
      nobody has changed the contract between its read and its commit. */
  lemma {:induction false} ActivatesIffUnchanged(before: seq<Step>, client: Id, c: Id, others: seq<Step>)
    requires Activatable(Run(EMPTY, before), c) && forall i | 0 <= i < |others| :: !OwnActivation(others[i], client)
    ensures var begun := Begun(Run(EMPTY, before), client, c, 0);
            Activates(Run(begun, others), CommitActivation(client), c)
            <==> forall i | 0 <= i < |others| :: Leaves(begun, others, i, c)
  {
    var l := Run(EMPTY, before);
    RunKeepsInv(before);
    AtTheCommit(l, client, c, 0, others);
    CommitOfPending(Run(Begun(l, client, c, 0), others), client, c, l.contracts[c].version);
    BegunRemembers(l, client, c, 0);
    StepKeepsInv(l, BeginActivation(client, c, 0));
    NothingChangedIff(Begun(l, client, c, 0), others, c);
  }

  /** With a version of its own, it goes through if and only if the contract is a DRAFT
      of just this version at the commit. */
  lemma {:induction false} ActivatesIffVersion(before: seq<Step>, client: Id, c: Id, version: nat, others: seq<Step>)
    requires version > 0
    requires Activatable(Run(EMPTY, before), c) && forall i | 0 <= i < |others| :: !OwnActivation(others[i], client)
    ensures var now := Run(Begun(Run(EMPTY, before), client, c, version), others);
            && c in now.contracts
            && (Activates(now, CommitActivation(client), c)
                <==> now.contracts[c].status == Draft && now.contracts[c].version == version)
  {
    RunKeepsInv(before);
    AtTheCommit(Run(EMPTY, before), client, c, version, others);
    CommitOfPending(Run(Begun(Run(EMPTY, before), client, c, version), others), client, c, version);
  }

  /** A commit that does not go through changes nothing but the pending read. */
  lemma {:induction false} RefusedActivationChangesNothing(before: seq<Step>, client: Id, c: Id, version: nat,
        others: seq<Step>)
    requires Activatable(Run(EMPTY, before), c) && forall i | 0 <= i < |others| :: !OwnActivation(others[i], client)
    ensures var now := Run(Begun(Run(EMPTY, before), client, c, version), others);
            !Activates(now, CommitActivation(client), c) ==>
              Apply(now, CommitActivation(client)) == now.(activations := now.activations - {client})
  {
    var l := Run(EMPTY, before);
    RunKeepsInv(before);
    AtTheCommit(l, client, c, version, others);
    CommitOfPending(Run(Begun(l, client, c, version), others), client, c,
                    if version == 0 then l.contracts[c].version else version);
  }

  // ----- The other changes a client asks for -----

  /** A renewal goes through if and only if it names no version or the contract's, and
      then it raises the version and nothing else. */
  lemma RenewalIff(l: Ledger, c: Id, version: nat)
    requires c in l.contracts
    ensures var m := Apply(l, Renew(c, version));
            m == if version == 0 || version == l.contracts[c].version
                 then l.(contracts := l.contracts[c := l.contracts[c].(version := l.contracts[c].version + 1)])
                 else l
  {
  }

  /** What a client may create: titled, of a known kind, for an active customer, with
      no negative amount and no end before the start, and schedulable if it is to
      start out ACTIVE. */
  ghost predicate Creatable(l: Ledger, input: ContractInput) {
    && input.titled && input.amount >= 0 && !input.kind.Unknown?
    && input.customer in l.customers && l.customers[input.customer].active
    && (input.start.Some? && input.end.Some? ==> !input.end.value.Before(input.start.value))
    && (input.activate ==> ScheduleOf(input.start, input.end, input.kind).Ok?)
  }

  /** Then the contract is there with the terms asked for, of version 1, and its rows
      follow them if it is ACTIVE; otherwise nothing is. */
  lemma {:induction false} CreationIff(before: seq<Step>, input: ContractInput)
    ensures var l := Run(EMPTY, before);
            var m := Apply(l, Create(input));
            if !Creatable(l, input) then m == l
            else
              && l.nextId !in l.contracts && l.nextId in m.contracts
              && m.contracts[l.nextId] == Contract(input.customer, input.amount, input.start, input.end, input.kind,
                                                   if input.activate then Active else Draft, 1)
              && (if input.activate then Follows(PlanOf(m, l.nextId), m.contracts[l.nextId]) else m.rows == l.rows)
  {
    RunKeepsInv(before);
    var l := Run(EMPTY, before);
    StepKeepsInv(l, Create(input));
    if Creatable(l, input) {
      CreatedContract(l, input);
      assert ContractOk(Created(l, input), l.nextId);
    }
  }

  /** A creation that is refused is told why. */
  lemma CreationRefusalIsTrue(l: Ledger, input: ContractInput)
    ensures match CreateRefusal(l, input)
            case None => Creatable(l, input)
            case Some(InvalidInput) =>
              || !input.titled || input.amount < 0 || input.kind.Unknown?
              || (input.start.Some? && input.end.Some? && input.end.value.Before(input.start.value))
            case Some(NotFound) => !(input.customer in l.customers && l.customers[input.customer].active)
            case Some(Schedule(e)) => input.activate && ScheduleOf(input.start, input.end, input.kind) == Err(e)
            case Some(_) => false
  {
  }

  lemma CreatedContract(l: Ledger, input: ContractInput)
    requires Creatable(l, input)
    ensures l.nextId in Created(l, input).contracts
    ensures Created(l, input).contracts[l.nextId]
         == Contract(input.customer, input.amount, input.start, input.end, input.kind, if input.activate then Active else Draft, 1)
    ensures !input.activate ==> Created(l, input).rows == l.rows
  {
  }
}

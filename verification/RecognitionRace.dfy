/** Recognition reads the contract before its transaction, and a merge can move the
    contract away in between. Over whole runs: exactly when does every linked sale
    end up on the customer its contract belongs to? */
module RecognitionRace {
  import opened Wrappers
  import opened ContractLedger

  /** Merged into another customer. */
  ghost predicate Gone(l: Ledger, x: Id) {
    x in l.customers && !l.customers[x].active
  }

  ghost predicate ContractsHaveOwners(l: Ledger) {
    && (forall x | x in l.customers :: x < l.nextId)
    && (forall c | c in l.contracts :: Accessible(l.customers, l.contracts[c].customer))
  }

  /** A pending read is right about the customer, or the customer has gone. */
  ghost predicate ReadsTrace(l: Ledger) {
    forall k | k in l.recognitions && l.recognitions[k].contract in l.contracts ::
      var rec := l.recognitions[k];
      rec.read.customer == l.contracts[rec.contract].customer || Gone(l, rec.read.customer)
  }

  /** A linked sale is on its contract's customer, or on one that has gone. */
  ghost predicate SalesTrace(l: Ledger) {
    forall r | r in l.rows && l.rows[r].sale.Some? && l.rows[r].sale.value in l.sales && l.rows[r].contract in l.contracts ::
      var owner := l.sales[l.rows[r].sale.value].customer;
      owner == l.contracts[l.rows[r].contract].customer || Gone(l, owner)
  }

  ghost predicate Trace(l: Ledger) {
    ContractsHaveOwners(l) && ReadsTrace(l) && SalesTrace(l)
  }

  function NewOwner(x: Id, target: Id, sources: seq<Id>): Id {
    if x in sources then target else x
  }

  /** Customers only go, and what belonged to one of the sources is the target's. */
  ghost predicate Hands(l: Ledger, m: Ledger, target: Id, sources: seq<Id>) {
    && (forall x | x in l.customers :: x in m.customers && (Gone(m, x) <==> Gone(l, x) || x in sources))
    && (forall x | x in sources :: Accessible(l.customers, x))
    && (forall c | c in l.contracts ::
          c in m.contracts && m.contracts[c].customer == NewOwner(l.contracts[c].customer, target, sources))
    && (forall s | s in l.sales :: s in m.sales && m.sales[s].customer == NewOwner(l.sales[s].customer, target, sources))
  }

  ghost predicate SameLinks(l: Ledger, m: Ledger) {
    && (forall r | r in l.rows && l.rows[r].sale.Some? :: r in m.rows && m.rows[r] == l.rows[r])
    && (forall r | r in m.rows && m.rows[r].sale.Some? :: r in l.rows && m.rows[r] == l.rows[r])
  }

  lemma HandsKeepsReads(l: Ledger, m: Ledger, target: Id, sources: seq<Id>)
    requires Inv(l) && ContractsHaveOwners(l) && ReadsTrace(l) && Hands(l, m, target, sources)
    requires forall k | k in m.recognitions :: k in l.recognitions && m.recognitions[k] == l.recognitions[k]
    ensures ReadsTrace(m)
  {
  }

  lemma HandsKeepsSales(l: Ledger, m: Ledger, target: Id, sources: seq<Id>)
    requires Inv(l) && ContractsHaveOwners(l) && SalesTrace(l) && Hands(l, m, target, sources) && SameLinks(l, m)
    ensures SalesTrace(m)
  {
    forall r | r in m.rows && m.rows[r].sale.Some? && m.rows[r].sale.value in m.sales && m.rows[r].contract in m.contracts
      ensures var owner := m.sales[m.rows[r].sale.value].customer;
              owner == m.contracts[m.rows[r].contract].customer || Gone(m, owner)
    {
      assert RowOk(l, l.rows[r]);
    }
  }

  // ----- Merges -----

  lemma {:induction false} MergedRows(l: Ledger, target: Id, sources: seq<Id>)
    requires target !in sources
    ensures var m := MergedAll(l, target, sources);
            && m.contracts.Keys == l.contracts.Keys && m.sales.Keys == l.sales.Keys && m.customers.Keys == l.customers.Keys
            && (forall c | c in l.contracts :: m.contracts[c].customer == NewOwner(l.contracts[c].customer, target, sources))
            && (forall s | s in l.sales :: m.sales[s].customer == NewOwner(l.sales[s].customer, target, sources))
            && (forall x | x in l.customers :: m.customers[x].active <==> l.customers[x].active && x !in sources)
            && (forall x | x in l.customers && l.customers[x].active && x in sources :: m.customers[x].mergedInto == Some(target))
    ensures var m := MergedAll(l, target, sources);
            m.rows == l.rows && m.recognitions == l.recognitions && m.nextId == l.nextId
  {
    if sources != [] {
      var before, last := sources[..|sources| - 1], sources[|sources| - 1];
      assert sources == before + [last];
      MergedRows(l, target, before);
    }
  }

  lemma {:induction false} MergeHands(l: Ledger, target: Id, sources: seq<Id>)
    requires MergeAllowed(l, target, sources)
    ensures Hands(l, MergedAll(l, target, sources), target, sources)
    ensures SameLinks(l, MergedAll(l, target, sources))
  {
    MergedRows(l, target, sources);
  }

  lemma {:induction false} MergeKeepsTrace(l: Ledger, target: Id, sources: seq<Id>)
    requires Inv(l) && Trace(l) && MergeAllowed(l, target, sources)
    ensures Trace(MergedAll(l, target, sources))
  {
    var m := MergedAll(l, target, sources);
    MergedRows(l, target, sources);
    MergeHands(l, target, sources);
    HandsKeepsReads(l, m, target, sources);
    HandsKeepsSales(l, m, target, sources);
  }

  /** A merge takes effect if and only if it names one to twenty different customers
      and a target besides, all of them active. */
  lemma MergeIff(l: Ledger, target: Id, sources: seq<Id>)
    ensures Apply(l, Merge(target, sources)) != l
       <==> && 1 <= |sources| <= 20
            && target in l.customers && l.customers[target].active && target !in sources
            && (forall x | x in sources :: x in l.customers && l.customers[x].active)
            && (forall i, j | 0 <= i < j < |sources| :: sources[i] != sources[j])
  {
    assert forall i | 0 <= i < |sources| :: sources[i] in sources;
    if MergeAllowed(l, target, sources) {
      MergedRows(l, target, sources);
      assert sources[0] in sources && l.customers[sources[0]].active;
    }
  }

  // ----- The other steps -----

  lemma CreateHands(l: Ledger, input: ContractInput)
    requires IdsAreUsed(l) && ContractsHaveOwners(l)
    ensures var m := Created(l, input);
            && Hands(l, m, 0, []) && SameLinks(l, m) && ContractsHaveOwners(m) && m.recognitions == l.recognitions
            && m.customers == l.customers
  {
  }

  lemma PlanHands(l: Ledger, m: Ledger, p: Plan)
    requires Inv(l) && ContractsHaveOwners(l) && WritesRows(l, m, p) && m.customers == l.customers
    requires p.id in l.contracts && m.contracts[p.id].customer == l.contracts[p.id].customer
    ensures Hands(l, m, 0, []) && SameLinks(l, m) && ContractsHaveOwners(m)
  {
    OldRowsStay(l, m, p);
  }

  /** Activating a contract changes neither its customer nor any customer. */
  lemma ActivatedOwner(l: Ledger, client: Id)
    requires client in l.activations && ActivationGuard(l, l.activations[client])
    ensures var m, id := Activated(l, client), l.activations[client].contract;
            m.customers == l.customers && id in m.contracts && m.contracts[id].customer == l.contracts[id].customer
  {
  }

  lemma ActivationHands(l: Ledger, client: Id)
    requires Inv(l) && ContractsHaveOwners(l)
    ensures var m := Activated(l, client);
            && Hands(l, m, 0, []) && SameLinks(l, m) && ContractsHaveOwners(m) && m.recognitions == l.recognitions
            && m.customers == l.customers
  {
    if client in l.activations && ActivationGuard(l, l.activations[client]) {
      var p := ActivatedPlan(l, client);
      ActivatedOwner(l, client);
      PlanHands(l, Activated(l, client), p);
    }
  }

  lemma RenewalHands(l: Ledger, id: Id, version: nat)
    requires ContractsHaveOwners(l)
    ensures var m := Renewed(l, id, version);
            Hands(l, m, 0, []) && SameLinks(l, m) && ContractsHaveOwners(m) && m.recognitions == l.recognitions
  {
  }

  lemma UntouchedHands(l: Ledger, m: Ledger)
    requires ContractsHaveOwners(l) && l.nextId <= m.nextId
    requires m.customers == l.customers && m.contracts == l.contracts && m.rows == l.rows
    requires forall s | s in l.sales :: s in m.sales && m.sales[s] == l.sales[s]
    ensures Hands(l, m, 0, []) && SameLinks(l, m) && ContractsHaveOwners(m)
  {
  }

  lemma SaleHands(l: Ledger, customer: Id, contract: Option<Id>, amount: int)
    requires IdsAreUsed(l) && ContractsHaveOwners(l)
    ensures var m := SoldDirectly(l, customer, contract, amount);
            Hands(l, m, 0, []) && SameLinks(l, m) && ContractsHaveOwners(m) && m.recognitions == l.recognitions
  {
    UntouchedHands(l, SoldDirectly(l, customer, contract, amount));
  }

  lemma NewCustomerHands(l: Ledger)
    requires IdsAreUsed(l) && ContractsHaveOwners(l)
    ensures var m := CustomerAdded(l);
            Hands(l, m, 0, []) && SameLinks(l, m) && ContractsHaveOwners(m) && m.recognitions == l.recognitions
  {
  }

  lemma ReadHands(l: Ledger, client: Id, id: Id, version: nat)
    requires ContractsHaveOwners(l)
    ensures var m := ActivationRead(l, client, id, version);
            Hands(l, m, 0, []) && SameLinks(l, m) && ContractsHaveOwners(m) && m.recognitions == l.recognitions
  {
    UntouchedHands(l, ActivationRead(l, client, id, version));
  }

  /** Every step but a merge and the two of recognition. */
  predicate Plain(step: Step) {
    !step.Merge? && !step.BeginRecognition? && !step.CommitRecognition?
  }

  lemma PlainHands(l: Ledger, step: Step)
    requires Inv(l) && ContractsHaveOwners(l) && Plain(step)
    ensures var m := Apply(l, step);
            Hands(l, m, 0, []) && SameLinks(l, m) && ContractsHaveOwners(m) && m.recognitions == l.recognitions
  {
    match step
    case AddCustomer => NewCustomerHands(l);
    case Create(input) => CreateHands(l, input);
    case BeginActivation(client, contract, version) => ReadHands(l, client, contract, version);
    case CommitActivation(client) => ActivationHands(l, client);
    case Renew(contract, version) => RenewalHands(l, contract, version);
    case SellDirectly(customer, contract, amount) => SaleHands(l, customer, contract, amount);
  }

  lemma RecognitionKeepsTrace(l: Ledger, client: Id)
    requires Inv(l) && Trace(l)
    ensures Trace(RecognizedStep(l, client))
  {
    var m := RecognizedStep(l, client);
    forall r | r in l.rows
      ensures RowOk(l, l.rows[r])
    {
    }
  }

  lemma StepKeepsTrace(l: Ledger, step: Step)
    requires Inv(l) && Trace(l)
    ensures Trace(Apply(l, step))
  {
    if {
      case step.Merge? =>
        if MergeAllowed(l, step.target, step.sources) {
          MergeKeepsTrace(l, step.target, step.sources);
        }
      case step.CommitRecognition? => RecognitionKeepsTrace(l, step.client);
      case step.BeginRecognition? =>
      case Plain(step) =>
        PlainHands(l, step);
        HandsKeepsReads(l, Apply(l, step), 0, []);
        HandsKeepsSales(l, Apply(l, step), 0, []);
    }
  }

  lemma {:induction false} RunKeepsTrace(steps: seq<Step>)
    ensures Trace(Run(EMPTY, steps))
  {
    if steps != [] {
      RunKeepsTrace(steps[..|steps| - 1]);
      RunKeepsInv(steps[..|steps| - 1]);
      StepKeepsTrace(Run(EMPTY, steps[..|steps| - 1]), steps[|steps| - 1]);
    }
  }

  // ----- A stranded sale stays stranded -----

  ghost predicate StrandedRow(l: Ledger, r: Id) {
    && r in l.rows && l.rows[r].sale.Some? && l.rows[r].sale.value in l.sales && l.rows[r].contract in l.contracts
    && l.sales[l.rows[r].sale.value].customer != l.contracts[l.rows[r].contract].customer
  }

  lemma HandsKeepsStranded(l: Ledger, m: Ledger, target: Id, sources: seq<Id>, r: Id)
    requires Trace(l) && ContractsHaveOwners(m) && Hands(l, m, target, sources) && SameLinks(l, m) && StrandedRow(l, r)
    ensures StrandedRow(m, r)
  {
    assert Gone(l, l.sales[l.rows[r].sale.value].customer);
  }

  lemma RecognitionKeepsStranded(l: Ledger, client: Id, r: Id)
    requires Inv(l) && StrandedRow(l, r)
    ensures StrandedRow(RecognizedStep(l, client), r)
  {
    assert RowOk(l, l.rows[r]);
  }

  lemma MergeKeepsStranded(l: Ledger, target: Id, sources: seq<Id>, r: Id)
    requires Inv(l) && Trace(l) && StrandedRow(l, r)
    ensures StrandedRow(Merged(l, target, sources), r)
  {
    if MergeAllowed(l, target, sources) {
      MergeHands(l, target, sources);
      MergeKeepsTrace(l, target, sources);
      HandsKeepsStranded(l, MergedAll(l, target, sources), target, sources, r);
    }
  }

  lemma StrandedIffDisagree(l: Ledger)
    ensures BooksAgree(l) <==> forall r :: !StrandedRow(l, r)
  {
    if !BooksAgree(l) {
      var r :| r in l.rows && l.rows[r].sale.Some? && l.rows[r].sale.value in l.sales && l.rows[r].contract in l.contracts
               && l.sales[l.rows[r].sale.value].customer != l.contracts[l.rows[r].contract].customer;
      assert StrandedRow(l, r);
    }
  }

  lemma StrandedStays(l: Ledger, step: Step, r: Id)
    requires Inv(l) && Trace(l) && StrandedRow(l, r)
    ensures StrandedRow(Apply(l, step), r)
  {
    if {
      case step.Merge? => MergeKeepsStranded(l, step.target, step.sources, r);
      case step.CommitRecognition? => RecognitionKeepsStranded(l, step.client, r);
      case step.BeginRecognition? =>
      case Plain(step) =>
        PlainHands(l, step);
        HandsKeepsStranded(l, Apply(l, step), 0, [], r);
    }
  }

  // ----- When customers have gone -----

  /** A merge that goes through lists this customer among its sources. */
  ghost predicate MergesAway(l: Ledger, step: Step, x: Id) {
    step.Merge? && MergeAllowed(l, step.target, step.sources) && x in step.sources
  }

  ghost predicate MergedAway(steps: seq<Step>, x: Id) {
    exists i :: 0 <= i < |steps| && MergesAway(Run(EMPTY, steps[..i]), steps[i], x)
  }

  lemma CreatedCustomers(l: Ledger, input: ContractInput)
    ensures Created(l, input).customers == l.customers
  {
  }

  lemma ActivatedCustomers(l: Ledger, client: Id)
    ensures Activated(l, client).customers == l.customers
  {
  }

  /** Only merges change customers, but for the new one. */
  lemma CustomersAfter(l: Ledger, step: Step)
    requires !step.Merge?
    ensures || Apply(l, step).customers == l.customers
            || Apply(l, step).customers == l.customers[l.nextId := Customer(true, None)]
  {
    match step
    case Create(input) => CreatedCustomers(l, input);
    case CommitActivation(client) => ActivatedCustomers(l, client);
    case _ =>
  }

  lemma StepGoneIff(l: Ledger, step: Step, x: Id)
    requires ContractsHaveOwners(l)
    ensures Gone(Apply(l, step), x) <==> Gone(l, x) || MergesAway(l, step, x)
  {
    if step.Merge? {
      if MergeAllowed(l, step.target, step.sources) {
        MergedRows(l, step.target, step.sources);
      }
    } else {
      CustomersAfter(l, step);
    }
  }

  lemma EarlierMergeAway(steps: seq<Step>, n: nat, x: Id)
    requires n <= |steps| && MergedAway(steps[..n], x)
    ensures MergedAway(steps, x)
  {
    var i :| 0 <= i < n && MergesAway(Run(EMPTY, steps[..n][..i]), steps[..n][i], x);
    assert steps[..n][..i] == steps[..i];
    assert MergesAway(Run(EMPTY, steps[..i]), steps[i], x);
  }

  lemma LastMergeAway(steps: seq<Step>, x: Id)
    requires steps != []
    ensures var n := |steps| - 1;
            MergedAway(steps, x) <==> MergedAway(steps[..n], x) || MergesAway(Run(EMPTY, steps[..n]), steps[n], x)
  {
    var n := |steps| - 1;
    if MergedAway(steps[..n], x) {
      EarlierMergeAway(steps, n, x);
    }
    if i :| 0 <= i < |steps| && MergesAway(Run(EMPTY, steps[..i]), steps[i], x) {
      if i < n {
        assert steps[..n][..i] == steps[..i];
        assert MergesAway(Run(EMPTY, steps[..n][..i]), steps[..n][i], x);
      }
    }
  }

  lemma {:induction false} GoneIff(steps: seq<Step>, x: Id)
    ensures Gone(Run(EMPTY, steps), x) <==> MergedAway(steps, x)
  {
    if steps != [] {
      var n := |steps| - 1;
      GoneIff(steps[..n], x);
      RunKeepsTrace(steps[..n]);
      LastMergeAway(steps, x);
      StepGoneIff(Run(EMPTY, steps[..n]), steps[n], x);
    }
  }

  // ----- The condition -----

  /** Step j books a sale on the customer it read, and a merge has taken that
      customer away by then. */
  ghost predicate Overtaken(steps: seq<Step>, j: nat)
    requires j < |steps|
  {
    var l := Run(EMPTY, steps[..j]);
    && steps[j].CommitRecognition?
    && RecognizesNow(l, steps[j].client)
    && MergedAway(steps[..j], l.recognitions[steps[j].client].read.customer)
  }

  lemma ReadIsOfOwner(l: Ledger, client: Id, row: Id)
    requires Inv(l) && Trace(l) && row in l.rows
    ensures var after := RecognitionRead(l, client, row);
            && client in after.recognitions && after.recognitions[client].row == row
            && !Gone(l, after.recognitions[client].read.customer)
  {
    assert RowOk(l, l.rows[row]);
  }

  /** The customer a recognition reads is there, so such a merge comes after the read. */
  lemma {:induction false} ReadCustomerIsThere(steps: seq<Step>, client: Id, row: Id)
    requires row in Run(EMPTY, steps).rows
    ensures var after := Apply(Run(EMPTY, steps), BeginRecognition(client, row));
            && client in after.recognitions && after.recognitions[client].row == row
            && !MergedAway(steps, after.recognitions[client].read.customer)
  {
    RunKeepsInv(steps);
    RunKeepsTrace(steps);
    ReadIsOfOwner(Run(EMPTY, steps), client, row);
    GoneIff(steps, RecognitionRead(Run(EMPTY, steps), client, row).recognitions[client].read.customer);
  }

  lemma {:induction false} CommitAgreesIff(steps: seq<Step>, client: Id)
    requires BooksAgree(Run(EMPTY, steps)) && RecognizesNow(Run(EMPTY, steps), client)
    ensures BooksAgree(RecognizedStep(Run(EMPTY, steps), client))
       <==> !MergedAway(steps, Run(EMPTY, steps).recognitions[client].read.customer)
  {
    var l := Run(EMPTY, steps);
    var rec := l.recognitions[client];
    RunKeepsInv(steps);
    RunKeepsTrace(steps);
    RecognitionAgreesIff(l, client);
    GoneIff(steps, rec.read.customer);
    assert Accessible(l.customers, l.contracts[rec.contract].customer);
  }

  lemma DisagreementStays(l: Ledger, step: Step)
    requires Inv(l) && Trace(l) && !BooksAgree(l)
    ensures !BooksAgree(Apply(l, step))
  {
    StrandedIffDisagree(l);
    var r :| StrandedRow(l, r);
    StrandedStays(l, step, r);
    StrandedIffDisagree(Apply(l, step));
  }

  /** A commit that is refused leaves sales and rows alone. */
  lemma RefusedCommitAgrees(l: Ledger, client: Id)
    requires BooksAgree(l) && !RecognizesNow(l, client)
    ensures BooksAgree(RecognizedStep(l, client))
  {
  }

  lemma {:induction false} StepAgreesIff(steps: seq<Step>, step: Step)
    ensures BooksAgree(Apply(Run(EMPTY, steps), step))
       <==> BooksAgree(Run(EMPTY, steps)) && !Overtaken(steps + [step], |steps|)
  {
    var l := Run(EMPTY, steps);
    assert (steps + [step])[..|steps|] == steps;
    RunKeepsInv(steps);
    RunKeepsTrace(steps);
    if !BooksAgree(l) {
      DisagreementStays(l, step);
    } else if !step.CommitRecognition? {
      OtherStepsAgree(l, step);
    } else if RecognizesNow(l, step.client) {
      CommitAgreesIff(steps, step.client);
    } else {
      RefusedCommitAgrees(l, step.client);
    }
  }

  /** For every run of every number of clients: at its end each linked sale is on the
      customer its contract belongs to if and only if no recognition was overtaken by
      a merge of the customer it had read. */
  lemma {:induction false} BooksAgreeIff(steps: seq<Step>)
    ensures BooksAgree(Run(EMPTY, steps)) <==> forall j | 0 <= j < |steps| :: !Overtaken(steps, j)
  {
    if steps != [] {
      var n := |steps| - 1;
      BooksAgreeIff(steps[..n]);
      assert steps == steps[..n] + [steps[n]];
      StepAgreesIff(steps[..n], steps[n]);
      forall j | 0 <= j < n
        ensures Overtaken(steps[..n], j) <==> Overtaken(steps, j)
      {
        assert steps[..n][..j] == steps[..j];
      }
    }
  }
}

/** Contracts, their revenue schedules and the sales ledger, changed by any number
    of clients. A table is a map from id to row and a transaction is one step.
    Activation and recognition each take two steps, a read and a guarded commit,
    so that other clients can act in between. */
module ContractLedger {
  import opened Wrappers
  import opened Calendar
  import opened RevenueSchedule
  import opened Sums

  type Id = nat

  datatype ContractStatus = Draft | Active

  datatype Contract = Contract(
    customer: Id, amount: int, start: Option<Day>, end: Option<Day>, kind: ScheduleType,
    status: ContractStatus, version: nat)
  {
    ghost function Schedule(): (r: Result<seq<Date>, ScheduleError>)
      ensures r.Ok? ==> |r.value| >= 1
    {
      ScheduleOf(start, end, kind)
    }

    predicate SameTerms(other: Contract) {
      amount == other.amount && start == other.start && end == other.end && kind == other.kind
    }
  }

  datatype RowStatus = Planned | Recognized

  datatype Entry = Entry(sequenceNo: nat, date: Date, amount: int)

  /** A revenue_schedules row: the planned entry, and what became of it. */
  datatype Row = Row(contract: Id, entry: Entry, status: RowStatus, sale: Option<Id>)

  datatype Sale = Sale(customer: Id, contract: Option<Id>, amount: int)

  datatype Customer = Customer(active: bool, mergedInto: Option<Id>)

  /** What a client read before it asks for the commit. */
  datatype Activation = Activation(contract: Id, version: nat, before: Contract)
  datatype Recognition = Recognition(row: Id, contract: Id, read: Contract)

  datatype Ledger = Ledger(
    customers: map<Id, Customer>,
    contracts: map<Id, Contract>,
    rows: map<Id, Row>,
    sales: map<Id, Sale>,
    activations: map<Id, Activation>,
    recognitions: map<Id, Recognition>,
    nextId: Id)

  datatype ContractInput = ContractInput(
    customer: Id, titled: bool, amount: int, start: Option<Day>, end: Option<Day>, kind: ScheduleType, activate: bool)

  datatype Refusal =
    | InvalidInput
    | NotFound
    | NotDraft
    | Schedule(error: ScheduleError)
    | ChangedByAnother
    | NotPlanned

  const EMPTY := Ledger(map[], map[], map[], map[], map[], map[], 0)

  predicate Accessible(customers: map<Id, Customer>, id: Id) {
    id in customers && customers[id].active
  }

  // ---- the steps, as functions on the tables --------------------------------

  function NewIds(first: Id, n: nat): (ids: set<Id>)
    ensures forall r :: r in ids <==> first <= r < first + n
  {
    if n == 0 then {} else NewIds(first, n - 1) + {first + n - 1}
  }

  function PlanRows(contract: Id, dates: seq<Date>, amounts: seq<int>, first: Id): map<Id, Row>
    requires |dates| == |amounts|
  {
    map r | r in NewIds(first, |dates|) ::
      Row(contract, Entry(r - first + 1, dates[r - first], amounts[r - first]), Planned, None)
  }

  /** The rows written for a contract on these terms, with ids from first on. */
  datatype Plan = Plan(id: Id, terms: Contract, dates: seq<Date>, amounts: seq<int>, first: Id)

  ghost function PlanOfTerms(id: Id, terms: Contract, first: Id): (p: Plan)
    requires terms.Schedule().Ok?
    ensures p.id == id && p.terms == terms && p.first == first && |p.dates| == |p.amounts|
    ensures IsPlan(p)
  {
    var dates := terms.Schedule().value;
    Plan(id, terms, dates, Parts(terms.amount, |dates|), first)
  }

  ghost predicate IsPlan(p: Plan) {
    p.terms.Schedule() == Ok(p.dates) && p.amounts == Parts(p.terms.amount, |p.dates|)
  }

  function WithPlan(l: Ledger, p: Plan): Ledger
    requires |p.dates| == |p.amounts|
  {
    l.(rows := l.rows + PlanRows(p.id, p.dates, p.amounts, p.first), nextId := p.first + |p.dates|)
  }

  ghost function WithSchedule(l: Ledger, id: Id, terms: Contract, first: Id): Ledger
    requires terms.Schedule().Ok?
  {
    WithPlan(l, PlanOfTerms(id, terms, first))
  }

  function ContractFrom(input: ContractInput): Contract {
    Contract(input.customer, input.amount, input.start, input.end, input.kind,
             if input.activate then Active else Draft, 1)
  }

  ghost function CreateRefusal(l: Ledger, input: ContractInput): Option<Refusal> {
    if !input.titled || input.amount < 0 then Some(InvalidInput)
    else if !Accessible(l.customers, input.customer) then Some(NotFound)
    else if input.start.Some? && input.end.Some? && input.end.value.Before(input.start.value) then Some(InvalidInput)
    else if input.kind.Unknown? then Some(InvalidInput)
    else if input.activate && ContractFrom(input).Schedule().Err? then
      Some(Schedule(ContractFrom(input).Schedule().error))
    else None
  }

  ghost function Created(l: Ledger, input: ContractInput): Ledger {
    if CreateRefusal(l, input).Some? then l else Inserted(l, ContractFrom(input))
  }

  /** A contract is inserted together with its rows when it starts out ACTIVE. */
  ghost function Inserted(l: Ledger, c: Contract): Ledger
    requires c.status == Active ==> c.Schedule().Ok?
  {
    if c.status == Active then WithSchedule(WithContract(l, c), l.nextId, c, l.nextId + 1) else WithContract(l, c)
  }

  function WithContract(l: Ledger, c: Contract): Ledger {
    l.(contracts := l.contracts[l.nextId := c], nextId := l.nextId + 1)
  }

  ghost function ActivationRefusal(l: Ledger, id: Id): Option<Refusal> {
    if id !in l.contracts then Some(NotFound)
    else if l.contracts[id].status != Draft then Some(NotDraft)
    else if l.contracts[id].Schedule().Err? then Some(Schedule(l.contracts[id].Schedule().error))
    else None
  }

  /** A version of 0 stands for "whatever I just read". */
  ghost function ActivationRead(l: Ledger, client: Id, id: Id, version: nat): Ledger {
    if ActivationRefusal(l, id).Some? then l else
      var before := l.contracts[id];
      l.(activations := l.activations[client := Activation(id, if version == 0 then before.version else version, before)])
  }

  predicate ActivationGuard(l: Ledger, a: Activation) {
    a.contract in l.contracts && l.contracts[a.contract].status == Draft && l.contracts[a.contract].version == a.version
  }

  ghost function Activated(l: Ledger, client: Id): Ledger {
    if client !in l.activations then l else
      var a := l.activations[client];
      if !ActivationGuard(l, a) || a.before.Schedule().Err? then l.(activations := l.activations - {client})
      else WithSchedule(Started(l, client, a.contract), a.contract, a.before, l.nextId)
  }

  /** The guarded UPDATE: the pending read is spent and the contract ACTIVE. */
  function Started(l: Ledger, client: Id, id: Id): Ledger
    requires id in l.contracts
  {
    var c := l.contracts[id];
    l.(activations := l.activations - {client},
       contracts := l.contracts[id := c.(status := Active, version := c.version + 1)])
  }

  function RecognitionRead(l: Ledger, client: Id, row: Id): Ledger {
    if row !in l.rows || l.rows[row].contract !in l.contracts then l else
      var id := l.rows[row].contract;
      l.(recognitions := l.recognitions[client := Recognition(row, id, l.contracts[id])])
  }

  function RecognitionRefusal(l: Ledger, rec: Recognition): Option<Refusal> {
    if rec.row !in l.rows || l.rows[rec.row].contract != rec.contract then Some(NotFound)
    else if l.rows[rec.row].status != Planned then Some(NotPlanned)
    else None
  }

  function RecognizedStep(l: Ledger, client: Id): Ledger {
    if client !in l.recognitions then l else
      var rec := l.recognitions[client];
      var done := l.(recognitions := l.recognitions - {client});
      if RecognitionRefusal(l, rec).Some? then done else
        var row := l.rows[rec.row];
        done.(sales := l.sales[l.nextId := Sale(rec.read.customer, Some(rec.contract), row.entry.amount)],
              rows := l.rows[rec.row := row.(status := Recognized, sale := Some(l.nextId))],
              nextId := l.nextId + 1)
  }

  function Renewed(l: Ledger, id: Id, version: nat): Ledger {
    if id in l.contracts && (version == 0 || l.contracts[id].version == version)
    then l.(contracts := l.contracts[id := l.contracts[id].(version := l.contracts[id].version + 1)])
    else l
  }

  predicate MergeAllowed(l: Ledger, target: Id, sources: seq<Id>) {
    && Accessible(l.customers, target)
    && 1 <= |sources| <= 20
    && (forall i | 0 <= i < |sources| :: sources[i] != target && Accessible(l.customers, sources[i]))
    && (forall i, j | 0 <= i < j < |sources| :: sources[i] != sources[j])
  }

  function MovedContract(c: Contract, target: Id, source: Id): Contract {
    if c.customer == source then c.(customer := target, version := c.version + 1) else c
  }

  function MovedSale(s: Sale, target: Id, source: Id): Sale {
    if s.customer == source then s.(customer := target) else s
  }

  function MergedOne(l: Ledger, target: Id, source: Id): Ledger {
    l.(contracts := map c | c in l.contracts :: MovedContract(l.contracts[c], target, source),
       sales := map s | s in l.sales :: MovedSale(l.sales[s], target, source),
       customers := if Accessible(l.customers, source)
                    then l.customers[source := Customer(false, Some(target))]
                    else l.customers)
  }

  function MergedAll(l: Ledger, target: Id, sources: seq<Id>): Ledger {
    if sources == [] then l
    else MergedOne(MergedAll(l, target, sources[..|sources| - 1]), target, sources[|sources| - 1])
  }

  function Merged(l: Ledger, target: Id, sources: seq<Id>): Ledger {
    if MergeAllowed(l, target, sources) then MergedAll(l, target, sources) else l
  }

  function SoldDirectly(l: Ledger, customer: Id, contract: Option<Id>, amount: int): Ledger {
    if amount >= 0 && Accessible(l.customers, customer) && (contract.Some? ==> contract.value in l.contracts)
    then l.(sales := l.sales[l.nextId := Sale(customer, contract, amount)], nextId := l.nextId + 1)
    else l
  }

  function CustomerAdded(l: Ledger): Ledger {
    l.(customers := l.customers[l.nextId := Customer(true, None)], nextId := l.nextId + 1)
  }

  datatype Step =
    | AddCustomer
    | Create(input: ContractInput)
    | BeginActivation(client: Id, contract: Id, version: nat)
    | CommitActivation(client: Id)
    | BeginRecognition(client: Id, row: Id)
    | CommitRecognition(client: Id)
    | Renew(contract: Id, version: nat)
    | Merge(target: Id, sources: seq<Id>)
    | SellDirectly(customer: Id, linkedTo: Option<Id>, amount: int)

  ghost function Apply(l: Ledger, step: Step): Ledger {
    match step
    case AddCustomer => CustomerAdded(l)
    case Create(input) => Created(l, input)
    case BeginActivation(client, contract, version) => ActivationRead(l, client, contract, version)
    case CommitActivation(client) => Activated(l, client)
    case BeginRecognition(client, row) => RecognitionRead(l, client, row)
    case CommitRecognition(client) => RecognizedStep(l, client)
    case Renew(contract, version) => Renewed(l, contract, version)
    case Merge(target, sources) => Merged(l, target, sources)
    case SellDirectly(customer, contract, amount) => SoldDirectly(l, customer, contract, amount)
  }

  ghost function Run(l: Ledger, steps: seq<Step>): Ledger {
    if steps == [] then l else Apply(Run(l, steps[..|steps| - 1]), steps[|steps| - 1])
  }

  // ---- what every step keeps ------------------------------------------------

  ghost function PlanOf(l: Ledger, c: Id): map<Id, Entry> {
    map r | r in l.rows && l.rows[r].contract == c :: l.rows[r].entry
  }

  ghost function EntriesOf(rows: map<Id, Row>): map<Id, Entry> {
    map r | r in rows :: rows[r].entry
  }

  ghost function Amounts(plan: map<Id, Entry>): map<Id, int> {
    map r | r in plan :: plan[r].amount
  }

  ghost predicate IdsAreUsed(l: Ledger) {
    && (forall c | c in l.contracts :: c < l.nextId)
    && (forall r | r in l.rows :: r < l.nextId)
    && (forall s | s in l.sales :: s < l.nextId)
  }

  ghost predicate HasEntry(plan: map<Id, Entry>, k: nat) {
    exists r :: r in plan && plan[r].sequenceNo == k
  }

  /** The plan is the schedule of these terms, each entry once. */
  ghost predicate Follows(plan: map<Id, Entry>, terms: Contract) {
    && terms.Schedule().Ok?
    && var dates := terms.Schedule().value;
    && (forall r | r in plan ::
          && 1 <= plan[r].sequenceNo <= |dates|
          && plan[r].date == dates[plan[r].sequenceNo - 1]
          && plan[r].amount == Parts(terms.amount, |dates|)[plan[r].sequenceNo - 1])
    && (forall r, q | r in plan && q in plan && r != q :: plan[r].sequenceNo != plan[q].sequenceNo)
    && (forall k | 1 <= k <= |dates| :: HasEntry(plan, k))
    && Total(Amounts(plan)) == terms.amount
  }

  ghost predicate ContractOk(l: Ledger, c: Id)
    requires c in l.contracts
  {
    && l.contracts[c].amount >= 0
    && (l.contracts[c].status == Draft ==> PlanOf(l, c) == map[])
    && (l.contracts[c].status == Active ==> Follows(PlanOf(l, c), l.contracts[c]))
  }

  ghost predicate RowOk(l: Ledger, row: Row) {
    && row.contract in l.contracts
    && (row.status == Planned <==> row.sale.None?)
    && (row.sale.Some? ==>
          && row.sale.value in l.sales
          && l.sales[row.sale.value].amount == row.entry.amount
          && l.sales[row.sale.value].contract == Some(row.contract))
  }

  ghost predicate SalesLinkedOnce(l: Ledger) {
    forall r, q | r in l.rows && q in l.rows && r != q && l.rows[r].sale.Some? :: l.rows[q].sale != l.rows[r].sale
  }

  ghost predicate ReadsOk(l: Ledger) {
    && (forall k | k in l.activations ::
          var a := l.activations[k];
          && a.contract in l.contracts && a.before.SameTerms(l.contracts[a.contract]) && a.before.Schedule().Ok?)
    && (forall k | k in l.recognitions ::
          var rec := l.recognitions[k];
          && rec.row in l.rows && l.rows[rec.row].contract == rec.contract && rec.contract in l.contracts)
  }

  ghost predicate Inv(l: Ledger) {
    && IdsAreUsed(l)
    && (forall c | c in l.contracts :: ContractOk(l, c))
    && (forall r | r in l.rows :: RowOk(l, l.rows[r]))
    && SalesLinkedOnce(l)
    && ReadsOk(l)
  }

  lemma LastPlanRow(contract: Id, dates: seq<Date>, amounts: seq<int>, first: Id)
    requires |dates| == |amounts| > 0
    ensures var n := |amounts| - 1;
            (Amounts(EntriesOf(PlanRows(contract, dates, amounts, first)))
             == Amounts(EntriesOf(PlanRows(contract, dates[..n], amounts[..n], first)))[first + n := amounts[n]])
            && first + n !in Amounts(EntriesOf(PlanRows(contract, dates[..n], amounts[..n], first)))
  {
  }

  lemma {:induction false} TotalOfPlan(contract: Id, dates: seq<Date>, amounts: seq<int>, first: Id)
    requires |dates| == |amounts|
    ensures Total(Amounts(EntriesOf(PlanRows(contract, dates, amounts, first)))) == Sum(amounts)
  {
    var plan := Amounts(EntriesOf(PlanRows(contract, dates, amounts, first)));
    if amounts == [] {
      assert plan.Keys == {};
    } else {
      var n := |amounts| - 1;
      var shorter := Amounts(EntriesOf(PlanRows(contract, dates[..n], amounts[..n], first)));
      TotalOfPlan(contract, dates[..n], amounts[..n], first);
      LastPlanRow(contract, dates, amounts, first);
      TotalAdd<Id>(shorter, first + n, amounts[n]);
      SumOfLast(amounts);
    }
  }

  /** A freshly written plan follows its terms: the rows sum to the amount. */
  lemma PlanFollows(id: Id, terms: Contract, first: Id)
    requires terms.amount >= 0 && terms.Schedule().Ok?
    ensures var dates := terms.Schedule().value;
            Follows(EntriesOf(PlanRows(id, dates, Parts(terms.amount, |dates|), first)), terms)
  {
    var dates := terms.Schedule().value;
    var n := |dates|;
    var plan := EntriesOf(PlanRows(id, dates, Parts(terms.amount, n), first));
    TotalOfPlan(id, dates, Parts(terms.amount, n), first);
    SplitPreservesTotal(terms.amount, n);
    forall k | 1 <= k <= n
      ensures HasEntry(plan, k)
    {
      assert first + k - 1 in plan && plan[first + k - 1].sequenceNo == k;
    }
  }

  lemma FollowsSameTerms(plan: map<Id, Entry>, a: Contract, b: Contract)
    requires a.SameTerms(b) && Follows(plan, a)
    ensures Follows(plan, b)
  {
  }

  /** m is l with these rows written for a contract that had none, and the contract
      ACTIVE. */
  ghost predicate WritesRows(l: Ledger, m: Ledger, p: Plan) {
    && |p.dates| == |p.amounts|
    && (if p.id in l.contracts then l.contracts[p.id].status == Draft && l.contracts[p.id].SameTerms(p.terms)
        else p.id >= l.nextId)
    && p.id < p.first && l.nextId <= p.first
    && p.id in m.contracts && m.contracts[p.id].status == Active && m.contracts[p.id].SameTerms(p.terms)
    && m.contracts == l.contracts[p.id := m.contracts[p.id]]
    && m.rows == l.rows + PlanRows(p.id, p.dates, p.amounts, p.first)
    && m.nextId == p.first + |p.dates|
    && m.sales == l.sales && m.recognitions == l.recognitions
    && (forall k | k in m.activations :: k in l.activations && m.activations[k] == l.activations[k])
  }

  /** Only an ACTIVE contract has rows. */
  lemma RowsMeanActive(l: Ledger, r: Id)
    requires Inv(l) && r in l.rows
    ensures var c := l.rows[r].contract; c in l.contracts && l.contracts[c].status == Active
  {
    var c := l.rows[r].contract;
    assert RowOk(l, l.rows[r]) && ContractOk(l, c);
    assert r in PlanOf(l, c);
  }

  lemma OldRowsStay(l: Ledger, m: Ledger, p: Plan)
    requires Inv(l) && WritesRows(l, m, p)
    ensures forall r | r in l.rows :: r in m.rows && m.rows[r] == l.rows[r] && l.rows[r].contract != p.id
  {
    forall r | r in l.rows
      ensures r in m.rows && m.rows[r] == l.rows[r] && l.rows[r].contract != p.id
    {
      RowsMeanActive(l, r);
      assert r !in NewIds(p.first, |p.dates|);
    }
  }

  lemma WrittenPlan(l: Ledger, m: Ledger, p: Plan)
    requires Inv(l) && WritesRows(l, m, p)
    ensures PlanOf(m, p.id) == EntriesOf(PlanRows(p.id, p.dates, p.amounts, p.first))
  {
    OldRowsStay(l, m, p);
  }

  lemma NewRowsAreThePlan(l: Ledger, m: Ledger, p: Plan)
    requires Inv(l) && WritesRows(l, m, p) && IsPlan(p) && p.terms.amount >= 0
    ensures ContractOk(m, p.id)
  {
    WrittenPlan(l, m, p);
    PlanFollows(p.id, p.terms, p.first);
    FollowsSameTerms(PlanOf(m, p.id), p.terms, m.contracts[p.id]);
  }

  lemma OtherPlansStay(l: Ledger, m: Ledger, p: Plan, c: Id)
    requires Inv(l) && WritesRows(l, m, p) && c != p.id
    ensures PlanOf(m, c) == PlanOf(l, c)
  {
    OldRowsStay(l, m, p);
  }

  lemma SamePlanStaysOk(l: Ledger, m: Ledger, c: Id)
    requires c in l.contracts && ContractOk(l, c)
    requires c in m.contracts && m.contracts[c] == l.contracts[c] && PlanOf(m, c) == PlanOf(l, c)
    ensures ContractOk(m, c)
  {
  }

  lemma PlanKeepsRows(l: Ledger, m: Ledger, p: Plan)
    requires Inv(l) && WritesRows(l, m, p)
    ensures forall r | r in m.rows :: RowOk(m, m.rows[r])
    ensures SalesLinkedOnce(m) && IdsAreUsed(m) && ReadsOk(m)
  {
    OldRowsStay(l, m, p);
    forall r | r in m.rows
      ensures RowOk(m, m.rows[r])
    {
      assert r in l.rows ==> RowOk(l, l.rows[r]);
    }
  }

  lemma WritingPlanKeepsInv(l: Ledger, m: Ledger, p: Plan)
    requires Inv(l) && WritesRows(l, m, p) && IsPlan(p) && p.terms.amount >= 0
    ensures Inv(m)
  {
    PlanKeepsRows(l, m, p);
    forall c | c in m.contracts
      ensures ContractOk(m, c)
    {
      if c == p.id {
        NewRowsAreThePlan(l, m, p);
      } else {
        OtherPlansStay(l, m, p, c);
        SamePlanStaysOk(l, m, c);
      }
    }
  }

  lemma DraftInsertKeepsInv(l: Ledger, m: Ledger, c: Contract)
    requires Inv(l) && c.status == Draft && c.amount >= 0
    requires m == WithContract(l, c)
    ensures Inv(m)
  {
    forall r | r in l.rows
      ensures RowOk(m, m.rows[r]) && l.rows[r].contract != l.nextId
    {
      assert RowOk(l, l.rows[r]);
    }
    forall k | k in m.contracts
      ensures ContractOk(m, k)
    {
      assert PlanOf(m, k) == PlanOf(l, k);
      if k == l.nextId {
        assert PlanOf(m, k) == map[];
      } else {
        SamePlanStaysOk(l, m, k);
      }
    }
  }

  lemma InsertWrites(l: Ledger, m: Ledger, p: Plan)
    requires |p.dates| == |p.amounts| && p.terms.status == Active && p.id == l.nextId && p.first == l.nextId + 1
    requires IdsAreUsed(l)
    requires m == WithPlan(WithContract(l, p.terms), p)
    ensures WritesRows(l, m, p)
  {
  }

  /** Inserting a contract that starts ACTIVE writes its plan. */
  lemma InsertedPlan(l: Ledger, m: Ledger, c: Contract, p: Plan)
    requires IdsAreUsed(l) && c.status == Active && c.Schedule().Ok? && m == Inserted(l, c)
    requires p == PlanOfTerms(l.nextId, c, l.nextId + 1)
    ensures WritesRows(l, m, p)
  {
    InsertWrites(l, m, p);
  }

  lemma ActivationWrites(l: Ledger, m: Ledger, client: Id, p: Plan)
    requires |p.dates| == |p.amounts| && p.first == l.nextId && IdsAreUsed(l)
    requires p.id in l.contracts && l.contracts[p.id].status == Draft && l.contracts[p.id].SameTerms(p.terms)
    requires m == WithPlan(Started(l, client, p.id), p)
    ensures WritesRows(l, m, p)
  {
  }

  /** A commit whose guard holds writes the plan of the terms that were read. */
  lemma ActivatedPlan(l: Ledger, client: Id) returns (p: Plan)
    requires Inv(l) && client in l.activations && ActivationGuard(l, l.activations[client])
    ensures var a := l.activations[client];
            a.before.Schedule().Ok? && a.before.amount >= 0 && p == PlanOfTerms(a.contract, a.before, l.nextId)
    ensures WritesRows(l, Activated(l, client), p)
  {
    var a := l.activations[client];
    assert ContractOk(l, a.contract);
    p := PlanOfTerms(a.contract, a.before, l.nextId);
    ActivationWrites(l, Activated(l, client), client, p);
  }

  lemma ActiveInsertKeepsInv(l: Ledger, m: Ledger, c: Contract)
    requires Inv(l) && c.status == Active && c.amount >= 0 && c.Schedule().Ok? && m == Inserted(l, c)
    ensures Inv(m)
  {
    var p := PlanOfTerms(l.nextId, c, l.nextId + 1);
    InsertedPlan(l, m, c, p);
    WritingPlanKeepsInv(l, m, p);
  }

  lemma CreateKeepsInv(l: Ledger, input: ContractInput)
    requires Inv(l)
    ensures Inv(Created(l, input))
  {
    if CreateRefusal(l, input).None? {
      InsertKeepsInv(l, Created(l, input), ContractFrom(input));
    }
  }

  lemma InsertKeepsInv(l: Ledger, m: Ledger, c: Contract)
    requires Inv(l) && c.amount >= 0 && (c.status == Active ==> c.Schedule().Ok?) && m == Inserted(l, c)
    ensures Inv(m)
  {
    if c.status == Active {
      ActiveInsertKeepsInv(l, m, c);
    } else {
      DraftInsertKeepsInv(l, m, c);
    }
  }

  lemma ActivationKeepsInv(l: Ledger, client: Id)
    requires Inv(l)
    ensures Inv(Activated(l, client))
  {
    var m := Activated(l, client);
    if client in l.activations {
      if ActivationGuard(l, l.activations[client]) {
        var p := ActivatedPlan(l, client);
        WritingPlanKeepsInv(l, m, p);
      } else {
        SameTablesKeepInv(l, m);
      }
    }
  }

  /** Forgetting or adding a pending read touches no table. */
  lemma SameTablesKeepInv(l: Ledger, m: Ledger)
    requires Inv(l) && ReadsOk(m)
    requires m.contracts == l.contracts && m.rows == l.rows && m.sales == l.sales && m.nextId == l.nextId
    ensures Inv(m)
  {
    forall c | c in m.contracts
      ensures ContractOk(m, c)
    {
      assert PlanOf(m, c) == PlanOf(l, c);
    }
    forall r | r in m.rows
      ensures RowOk(m, m.rows[r])
    {
      assert RowOk(l, l.rows[r]);
    }
  }

  ghost predicate RecognizesNow(l: Ledger, client: Id) {
    client in l.recognitions && RecognitionRefusal(l, l.recognitions[client]).None?
  }

  /** Recognizing a row leaves every plan as it was. */
  lemma RecognitionKeepsContracts(l: Ledger, client: Id, c: Id)
    requires Inv(l) && RecognizesNow(l, client) && c in l.contracts
    ensures PlanOf(RecognizedStep(l, client), c) == PlanOf(l, c)
    ensures ContractOk(RecognizedStep(l, client), c)
  {
    RecognitionPersists(l, client, c);
    SamePlanStaysOk(l, RecognizedStep(l, client), c);
  }

  lemma RecognitionKeepsRows(l: Ledger, client: Id)
    requires Inv(l) && RecognizesNow(l, client)
    ensures var m := RecognizedStep(l, client);
            && (forall r | r in m.rows :: RowOk(m, m.rows[r]))
            && SalesLinkedOnce(m) && IdsAreUsed(m) && ReadsOk(m)
  {
    var m := RecognizedStep(l, client);
    forall r | r in m.rows
      ensures RowOk(m, m.rows[r])
      ensures r != l.recognitions[client].row ==> m.rows[r].sale != Some(l.nextId)
    {
      assert RowOk(l, l.rows[r]);
    }
  }

  lemma RecognitionKeepsInv(l: Ledger, client: Id)
    requires Inv(l)
    ensures Inv(RecognizedStep(l, client))
  {
    var m := RecognizedStep(l, client);
    if RecognizesNow(l, client) {
      RecognitionKeepsRows(l, client);
      forall c | c in m.contracts
        ensures ContractOk(m, c)
      {
        RecognitionKeepsContracts(l, client, c);
      }
    } else {
      SameTablesKeepInv(l, m);
    }
  }

  /** New versions, new customers: anything that leaves the terms, the rows and
      what the linked sales say about them alone. */
  lemma OutsideTermsKeepsInv(l: Ledger, m: Ledger)
    requires Inv(l)
    requires m.contracts.Keys == l.contracts.Keys && m.rows == l.rows && l.nextId <= m.nextId
    requires forall c | c in l.contracts ::
               m.contracts[c].SameTerms(l.contracts[c]) && m.contracts[c].status == l.contracts[c].status
    requires forall s | s in l.sales ::
               s in m.sales && m.sales[s].amount == l.sales[s].amount && m.sales[s].contract == l.sales[s].contract
    requires forall s | s in m.sales :: s < m.nextId
    requires m.activations == l.activations && m.recognitions == l.recognitions
    ensures Inv(m)
  {
    forall c | c in m.contracts
      ensures ContractOk(m, c)
    {
      assert ContractOk(l, c);
      assert PlanOf(m, c) == PlanOf(l, c);
      if l.contracts[c].status == Active {
        FollowsSameTerms(PlanOf(l, c), l.contracts[c], m.contracts[c]);
      }
    }
    forall r | r in m.rows
      ensures RowOk(m, m.rows[r])
    {
      assert RowOk(l, l.rows[r]);
    }
  }

  lemma {:induction false} MergeKeepsInv(l: Ledger, target: Id, sources: seq<Id>)
    requires Inv(l)
    ensures Inv(MergedAll(l, target, sources))
  {
    if sources != [] {
      var n := |sources| - 1;
      MergeKeepsInv(l, target, sources[..n]);
      OutsideTermsKeepsInv(MergedAll(l, target, sources[..n]), MergedAll(l, target, sources));
    }
  }

  lemma ActivationReadKeepsInv(l: Ledger, client: Id, id: Id, version: nat)
    requires Inv(l)
    ensures Inv(ActivationRead(l, client, id, version))
  {
    if ActivationRefusal(l, id).None? {
      var m := ActivationRead(l, client, id, version);
      assert ReadsOk(m) by {
        assert ReadsOk(l);
      }
      SameTablesKeepInv(l, m);
    }
  }

  lemma RecognitionReadKeepsInv(l: Ledger, client: Id, row: Id)
    requires Inv(l)
    ensures Inv(RecognitionRead(l, client, row))
  {
    if row in l.rows && l.rows[row].contract in l.contracts {
      var m := RecognitionRead(l, client, row);
      assert ReadsOk(m) by {
        assert ReadsOk(l);
      }
      SameTablesKeepInv(l, m);
    }
  }

  lemma NewVersionKeepsInv(l: Ledger, m: Ledger, id: Id)
    requires Inv(l) && id in l.contracts
    requires m == l.(contracts := l.contracts[id := l.contracts[id].(version := l.contracts[id].version + 1)])
    ensures Inv(m)
  {
    OutsideTermsKeepsInv(l, m);
  }

  lemma RenewalKeepsInv(l: Ledger, id: Id, version: nat)
    requires Inv(l)
    ensures Inv(Renewed(l, id, version))
  {
    if id in l.contracts && (version == 0 || l.contracts[id].version == version) {
      NewVersionKeepsInv(l, Renewed(l, id, version), id);
    }
  }

  lemma NewRecordsKeepInv(l: Ledger, customer: Id, contract: Option<Id>, amount: int)
    requires Inv(l)
    ensures Inv(SoldDirectly(l, customer, contract, amount)) && Inv(CustomerAdded(l))
  {
    OutsideTermsKeepsInv(l, SoldDirectly(l, customer, contract, amount));
    OutsideTermsKeepsInv(l, CustomerAdded(l));
  }

  /** Every step of every client keeps the ledger consistent. */
  lemma StepKeepsInv(l: Ledger, step: Step)
    requires Inv(l)
    ensures Inv(Apply(l, step))
  {
    match step
    case AddCustomer => NewRecordsKeepInv(l, 0, None, 0);
    case Create(input) => CreateKeepsInv(l, input);
    case BeginActivation(client, contract, version) => ActivationReadKeepsInv(l, client, contract, version);
    case CommitActivation(client) => ActivationKeepsInv(l, client);
    case BeginRecognition(client, row) => RecognitionReadKeepsInv(l, client, row);
    case CommitRecognition(client) => RecognitionKeepsInv(l, client);
    case Renew(contract, version) => RenewalKeepsInv(l, contract, version);
    case Merge(target, sources) => MergeKeepsInv(l, target, sources);
    case SellDirectly(customer, contract, amount) => NewRecordsKeepInv(l, customer, contract, amount);
  }

  lemma {:induction false} RunKeepsInv(steps: seq<Step>)
    ensures Inv(Run(EMPTY, steps))
  {
    if steps != [] {
      RunKeepsInv(steps[..|steps| - 1]);
      StepKeepsInv(Run(EMPTY, steps[..|steps| - 1]), steps[|steps| - 1]);
    }
  }

  // ---- conservation -----------------------------------------------------------

  ghost predicate IsLinked(l: Ledger, c: Id, sale: Id) {
    exists r :: r in l.rows && l.rows[r].contract == c && l.rows[r].sale == Some(sale)
  }

  /** The sales that recognized rows of a contract point at. */
  ghost function LinkedSales(l: Ledger, c: Id): map<Id, int> {
    map s | s in l.sales && IsLinked(l, c, s) :: l.sales[s].amount
  }

  ghost function AmountsWith(l: Ledger, c: Id, status: RowStatus): map<Id, int> {
    map r | r in l.rows && l.rows[r].contract == c && l.rows[r].status == status :: l.rows[r].entry.amount
  }

  lemma PlanSplitsByStatus(l: Ledger, c: Id)
    ensures Total(Amounts(PlanOf(l, c)))
         == Total(AmountsWith(l, c, Planned)) + Total(AmountsWith(l, c, Recognized))
  {
    TotalMerge(AmountsWith(l, c, Planned), AmountsWith(l, c, Recognized));
    assert AmountsWith(l, c, Planned) + AmountsWith(l, c, Recognized) == Amounts(PlanOf(l, c));
  }

  /** The sale each recognized row of a contract points at. */
  ghost function SaleOf(l: Ledger, c: Id): map<Id, Id> {
    map r | r in l.rows && l.rows[r].contract == c && l.rows[r].status == Recognized && l.rows[r].sale.Some? ::
      l.rows[r].sale.value
  }

  lemma SalesAreThoseOfRows(l: Ledger, c: Id)
    requires Inv(l)
    ensures LinkedSales(l, c).Keys == SaleOf(l, c).Values
  {
    forall s
      ensures s in LinkedSales(l, c) <==> s in SaleOf(l, c).Values
    {
      if s in LinkedSales(l, c) {
        var r :| r in l.rows && l.rows[r].contract == c && l.rows[r].sale == Some(s);
        assert RowOk(l, l.rows[r]);
        assert r in SaleOf(l, c) && SaleOf(l, c)[r] == s;
      }
      if s in SaleOf(l, c).Values {
        var r :| r in SaleOf(l, c) && SaleOf(l, c)[r] == s;
        assert RowOk(l, l.rows[r]) && l.rows[r].sale == Some(s);
        assert IsLinked(l, c, s);
      }
    }
  }

  lemma SalesCarryTheAmounts(l: Ledger, c: Id)
    requires Inv(l)
    ensures SaleOf(l, c).Keys == AmountsWith(l, c, Recognized).Keys
    ensures forall r | r in SaleOf(l, c) ::
              SaleOf(l, c)[r] in l.sales && l.sales[SaleOf(l, c)[r]].amount == AmountsWith(l, c, Recognized)[r]
  {
  }

  lemma LinkedSalesMatchRecognizedRows(l: Ledger, c: Id)
    requires Inv(l)
    ensures Total(LinkedSales(l, c)) == Total(AmountsWith(l, c, Recognized))
  {
    SalesAreThoseOfRows(l, c);
    SalesCarryTheAmounts(l, c);
    TotalRekey<Id, Id>(AmountsWith(l, c, Recognized), SaleOf(l, c), LinkedSales(l, c));
  }

  /** Over every interleaving: a contract has rows exactly when it is ACTIVE, and
      the sales its rows are linked to plus what is still planned make up its
      amount, to the cent. */
  lemma {:induction false} MoneyIsConserved(steps: seq<Step>, c: Id)
    requires c in Run(EMPTY, steps).contracts
    ensures var l := Run(EMPTY, steps);
            && (l.contracts[c].status == Active <==> PlanOf(l, c) != map[])
            && Total(LinkedSales(l, c)) + Total(AmountsWith(l, c, Planned))
               == if l.contracts[c].status == Active then l.contracts[c].amount else 0
  {
    var l := Run(EMPTY, steps);
    RunKeepsInv(steps);
    assert ContractOk(l, c);
    PlanSplitsByStatus(l, c);
    LinkedSalesMatchRecognizedRows(l, c);
    if l.contracts[c].status == Active {
      assert HasEntry(PlanOf(l, c), 1);
    } else {
      assert Amounts(PlanOf(l, c)).Keys == {};
    }
  }

  /** What "written once" means for the rows of a contract, from one state to a later one. */
  ghost predicate RowsPersist(l: Ledger, m: Ledger, c: Id) {
    && PlanOf(m, c) == PlanOf(l, c)
    && forall r | r in l.rows && l.rows[r].status == Recognized :: r in m.rows && m.rows[r] == l.rows[r]
  }

  lemma PlanElsewherePersists(l: Ledger, m: Ledger, p: Plan, c: Id)
    requires Inv(l) && PlanOf(l, c) != map[] && WritesRows(l, m, p)
    ensures RowsPersist(l, m, c)
  {
    OldRowsStay(l, m, p);
    assert c != p.id by {
      var r :| r in PlanOf(l, c);
      assert l.rows[r].contract == c;
    }
    OtherPlansStay(l, m, p, c);
  }

  lemma SameRowsPersist(l: Ledger, m: Ledger, c: Id)
    requires m.rows == l.rows
    ensures RowsPersist(l, m, c)
  {
  }

  lemma RecognitionPersists(l: Ledger, client: Id, c: Id)
    ensures RowsPersist(l, RecognizedStep(l, client), c)
  {
  }

  lemma CreatePersists(l: Ledger, input: ContractInput, c: Id)
    requires Inv(l) && PlanOf(l, c) != map[]
    ensures RowsPersist(l, Created(l, input), c)
  {
    if CreateRefusal(l, input).None? {
      InsertPersists(l, Created(l, input), ContractFrom(input), c);
    }
  }

  lemma InsertPersists(l: Ledger, m: Ledger, added: Contract, c: Id)
    requires Inv(l) && PlanOf(l, c) != map[] && added.amount >= 0
    requires (added.status == Active ==> added.Schedule().Ok?) && m == Inserted(l, added)
    ensures RowsPersist(l, m, c)
  {
    if added.status == Active {
      var p := PlanOfTerms(l.nextId, added, l.nextId + 1);
      InsertedPlan(l, m, added, p);
      PlanElsewherePersists(l, m, p, c);
    } else {
      SameRowsPersist(l, m, c);
    }
  }

  lemma ActivationPersists(l: Ledger, client: Id, c: Id)
    requires Inv(l) && PlanOf(l, c) != map[]
    ensures RowsPersist(l, Activated(l, client), c)
  {
    if client in l.activations && ActivationGuard(l, l.activations[client]) {
      var p := ActivatedPlan(l, client);
      PlanElsewherePersists(l, Activated(l, client), p, c);
    } else {
      SameRowsPersist(l, Activated(l, client), c);
    }
  }

  /** Rows are created once: no later step adds, drops or rewrites an entry of a
      contract that has a plan, and a recognized row keeps its sale for good. */
  lemma PlanIsWrittenOnce(l: Ledger, step: Step, c: Id)
    requires Inv(l) && PlanOf(l, c) != map[]
    ensures RowsPersist(l, Apply(l, step), c)
  {
    if {
      case step.Create? => CreatePersists(l, step.input, c);
      case step.CommitActivation? => ActivationPersists(l, step.client, c);
      case step.CommitRecognition? => RecognitionPersists(l, step.client, c);
      case !step.Create? && !step.CommitActivation? && !step.CommitRecognition? =>
        QuietStepKeepsRows(l, step);
        SameRowsPersist(l, Apply(l, step), c);
    }
  }

  lemma QuietStepKeepsRows(l: Ledger, step: Step)
    requires !step.Create? && !step.CommitActivation? && !step.CommitRecognition?
    ensures Apply(l, step).rows == l.rows
  {
    if step.Merge? {
      MergeKeepsRows(l, step.target, step.sources);
    }
  }

  lemma {:induction false} MergeKeepsRows(l: Ledger, target: Id, sources: seq<Id>)
    ensures MergedAll(l, target, sources).rows == l.rows
  {
    if sources != [] {
      MergeKeepsRows(l, target, sources[..|sources| - 1]);
    }
  }

  // ---- the customer a sale is booked on ---------------------------------------

  /** Every linked sale is booked on the customer its contract belongs to. */
  ghost predicate BooksAgree(l: Ledger) {
    forall r | r in l.rows && l.rows[r].sale.Some? && l.rows[r].sale.value in l.sales && l.rows[r].contract in l.contracts ::
      l.sales[l.rows[r].sale.value].customer == l.contracts[l.rows[r].contract].customer
  }

  /** Recognition reads the contract before its transaction, so a merge between
      the two can move the contract away. The books stay in agreement exactly
      when the customer read is still the contract's customer at the commit. */
  lemma RecognitionAgreesIff(l: Ledger, client: Id)
    requires Inv(l) && BooksAgree(l) && RecognizesNow(l, client)
    ensures var rec := l.recognitions[client];
            BooksAgree(RecognizedStep(l, client)) <==> rec.read.customer == l.contracts[rec.contract].customer
  {
    var m := RecognizedStep(l, client);
    var rec := l.recognitions[client];
    assert m.rows[rec.row].sale == Some(l.nextId);
    forall r | r in l.rows
      ensures RowOk(l, l.rows[r])
    {
    }
  }

  /** No other step can break the agreement. */
  lemma OtherStepsAgree(l: Ledger, step: Step)
    requires Inv(l) && BooksAgree(l) && !step.CommitRecognition?
    ensures BooksAgree(Apply(l, step))
  {
    match step
    case Create(input) => CreatedAgrees(l, input);
    case CommitActivation(client) => ActivatedAgrees(l, client);
    case Merge(target, sources) => MergeAgrees(l, target, sources);
    case SellDirectly(customer, contract, amount) =>
      assert forall r | r in l.rows :: RowOk(l, l.rows[r]);
    case _ =>
  }

  lemma CreatedAgrees(l: Ledger, input: ContractInput)
    requires Inv(l) && BooksAgree(l)
    ensures BooksAgree(Created(l, input))
  {
  }

  lemma PlanAgrees(l: Ledger, m: Ledger, p: Plan)
    requires Inv(l) && BooksAgree(l) && WritesRows(l, m, p)
    requires p.id in l.contracts ==> m.contracts[p.id].customer == l.contracts[p.id].customer
    ensures BooksAgree(m)
  {
  }

  lemma ActivatedAgrees(l: Ledger, client: Id)
    requires Inv(l) && BooksAgree(l)
    ensures BooksAgree(Activated(l, client))
  {
    var m := Activated(l, client);
    if client in l.activations && ActivationGuard(l, l.activations[client]) {
      var p := ActivatedPlan(l, client);
      PlanAgrees(l, m, p);
    }
  }

  lemma {:induction false} MergeAgrees(l: Ledger, target: Id, sources: seq<Id>)
    requires BooksAgree(l)
    ensures BooksAgree(MergedAll(l, target, sources))
  {
    if sources != [] {
      MergeAgrees(l, target, sources[..|sources| - 1]);
    }
  }

  function OneSale(day: Day): ContractInput {
    ContractInput(0, true, 100, Some(day), None, OneTime, true)
  }

  /** Two customers and a contract of the first: its only row is row 3. */
  lemma OneContract(day: Day)
    ensures var l := Created(CustomerAdded(CustomerAdded(EMPTY)), OneSale(day));
            && l.customers == map[0 := Customer(true, None), 1 := Customer(true, None)]
            && l.contracts == map[2 := ContractFrom(OneSale(day))]
            && 3 in l.rows && l.rows[3].contract == 2 && l.rows[3].status == Planned
            && l.nextId == 4 && l.sales == map[] && l.recognitions == map[]
  {
    assert ContractFrom(OneSale(day)).Schedule() == Ok([day]);
  }

  /** Sale 4, linked to contract 2 of customer 1, is booked on customer 0. */
  ghost predicate Stranded(l: Ledger) {
    && 3 in l.rows && l.rows[3].contract == 2 && l.rows[3].sale == Some(4)
    && 4 in l.sales && l.sales[4].customer == 0
    && 2 in l.contracts && l.contracts[2].customer == 1
    && !BooksAgree(l)
  }

  /** The two-step race, played out: a contract of customer 0 is read for
      recognition, customer 0 is merged into customer 1, and the commit still
      books the sale on customer 0. */
  lemma MergeCanStrandASale(day: Day)
    ensures Stranded(Run(EMPTY, [AddCustomer, AddCustomer, Create(OneSale(day)), BeginRecognition(9, 3),
                                 Merge(1, [0]), CommitRecognition(9)]))
  {
    var l := Created(CustomerAdded(CustomerAdded(EMPTY)), OneSale(day));
    RaceRuns(day, l);
    OneContract(day);
    StrandsItsSale(l);
  }

  lemma RaceRuns(day: Day, l: Ledger)
    requires l == Created(CustomerAdded(CustomerAdded(EMPTY)), OneSale(day))
    ensures Run(EMPTY, [AddCustomer, AddCustomer, Create(OneSale(day)), BeginRecognition(9, 3), Merge(1, [0]),
                        CommitRecognition(9)])
         == RecognizedStep(Merged(RecognitionRead(l, 9, 3), 1, [0]), 9)
  {
    RunOfSix(EMPTY, [AddCustomer, AddCustomer, Create(OneSale(day)), BeginRecognition(9, 3), Merge(1, [0]), CommitRecognition(9)]);
  }

  lemma StrandsItsSale(l: Ledger)
    requires l.customers == map[0 := Customer(true, None), 1 := Customer(true, None)] && l.nextId == 4
    requires 2 in l.contracts && l.contracts[2].customer == 0
    requires 3 in l.rows && l.rows[3].contract == 2 && l.rows[3].status == Planned
    ensures Stranded(RecognizedStep(Merged(RecognitionRead(l, 9, 3), 1, [0]), 9))
  {
    var read := RecognitionRead(l, 9, 3);
    assert [0][..0] == [];
    assert MergedAll(read, 1, [0]) == MergedOne(read, 1, 0);
    assert MergeAllowed(read, 1, [0]);
    var m := RecognizedStep(Merged(read, 1, [0]), 9);
    assert m.rows[3].sale == Some(4) && m.rows[3].contract == 2;
  }

  lemma {:induction false} RunOfSix(l: Ledger, s: seq<Step>)
    requires |s| == 6
    ensures Run(l, s) == Apply(Apply(Apply(Apply(Apply(Apply(l, s[0]), s[1]), s[2]), s[3]), s[4]), s[5])
  {
    assert s[..5][..4] == s[..4] && s[..4][..3] == s[..3] && s[..3][..2] == s[..2] && s[..2][..1] == s[..1];
    assert s[..1][..0] == [];
    assert Run(l, s[..1]) == Apply(l, s[0]);
    assert Run(l, s[..2]) == Apply(Run(l, s[..1]), s[1]);
    assert Run(l, s[..3]) == Apply(Run(l, s[..2]), s[2]);
    assert Run(l, s[..4]) == Apply(Run(l, s[..3]), s[3]);
    assert Run(l, s[..5]) == Apply(Run(l, s[..4]), s[4]);
  }
}

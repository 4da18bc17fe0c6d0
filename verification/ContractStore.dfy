/** The contract service over its tables. Every method is one transaction (or the
    read before one) and is proved equal to the step of ContractLedger it performs. */
module ContractStore {
  import opened Wrappers
  import opened Calendar
  import opened RevenueSchedule
  import opened ContractLedger

  class Store {
    var customers: map<Id, Customer>
    var contracts: map<Id, Contract>
    var rows: map<Id, Row>
    var sales: map<Id, Sale>
    var activations: map<Id, Activation>
    var recognitions: map<Id, Recognition>
    var nextId: Id

    ghost function State(): Ledger
      reads this
    {
      Ledger(customers, contracts, rows, sales, activations, recognitions, nextId)
    }

    constructor ()
      ensures State() == EMPTY
    {
      customers, contracts, rows, sales := map[], map[], map[], map[];
      activations, recognitions, nextId := map[], map[], 0;
    }

    method NewId() returns (id: Id)
      modifies this`nextId
      ensures id == old(nextId) && nextId == old(nextId) + 1
    {
      id := nextId;
      nextId := nextId + 1;
    }

    method AddCustomer() returns (id: Id)
      modifies this
      ensures State() == Apply(old(State()), Step.AddCustomer)
    {
      id := NewId();
      customers := customers[id := Customer(true, None)];
    }

    /** createRevenueSchedule: one INSERT per date, or nothing and the error. */
    method CreateRevenueSchedule(id: Id, terms: Contract) returns (r: Result<(), ScheduleError>)
      modifies this`rows, this`nextId
      ensures terms.Schedule().Err? ==> r == Err(terms.Schedule().error) && State() == old(State())
      ensures terms.Schedule().Ok? ==> r.Ok? && State() == WithSchedule(old(State()), id, terms, old(nextId))
    {
      var built := BuildScheduleDates(terms.start, terms.end, terms.kind);
      ScheduleIsUnique(terms.start, terms.end, terms.kind, built, terms.Schedule());
      if built.Err? {
        return Err(built.error);
      }
      var dates := built.value;
      var amounts := SplitScheduleAmount(terms.amount, |dates|);
      InsertRows(id, dates, amounts[..]);
      return Ok(());
    }

    method InsertRows(id: Id, dates: seq<Date>, amounts: seq<int>)
      requires |dates| == |amounts|
      modifies this`rows, this`nextId
      ensures rows == old(rows) + PlanRows(id, dates, amounts, old(nextId))
      ensures nextId == old(nextId) + |dates|
    {
      for i := 0 to |dates|
        invariant nextId == old(nextId) + i
        invariant rows == old(rows) + PlanRows(id, dates[..i], amounts[..i], old(nextId))
      {
        var rowId := NewId();
        rows := rows[rowId := Row(id, Entry(i + 1, dates[i], amounts[i]), Planned, None)];
        NextPlanRow(id, dates, amounts, old(nextId), i);
      }
      assert dates[..|dates|] == dates && amounts[..|dates|] == amounts;
    }

    method CreateContract(input: ContractInput) returns (r: Result<Id, Refusal>)
      modifies this
      ensures State() == Apply(old(State()), Create(input))
      ensures r == match CreateRefusal(old(State()), input) { case Some(e) => Err(e) case None => Ok(old(nextId)) }
    {
      if !input.titled || input.amount < 0 {
        return Err(InvalidInput);
      }
      if !Accessible(customers, input.customer) {
        return Err(NotFound);
      }
      if input.start.Some? && input.end.Some? && input.end.value.Before(input.start.value) {
        return Err(InvalidInput);
      }
      if input.kind.Unknown? {
        return Err(InvalidInput);
      }
      var c := Contract(input.customer, input.amount, input.start, input.end, input.kind,
                        if input.activate then Active else Draft, 1);
      r := InsertContract(c);
    }

    /** One transaction: the contract and, if it starts ACTIVE, its rows. */
    method InsertContract(c: Contract) returns (r: Result<Id, Refusal>)
      modifies this`contracts, this`rows, this`nextId
      ensures var before := old(State());
              if c.status == Active && c.Schedule().Err?
              then r == Err(Schedule(c.Schedule().error)) && State() == before
              else r == Ok(before.nextId) && State() == Inserted(before, c)
    {
      var contractsBefore, nextIdBefore := contracts, nextId;
      var id := NewId();
      contracts := contracts[id := c];
      assert State() == WithContract(old(State()), c);
      if c.status == Active {
        var written := CreateRevenueSchedule(id, c);
        if written.Err? {
          // The transaction rolls back.
          contracts, nextId := contractsBefore, nextIdBefore;
          return Err(Schedule(written.error));
        }
        assert State() == Inserted(old(State()), c);
      }
      return Ok(id);
    }

    method BeginActivation(client: Id, id: Id, version: nat) returns (r: Result<(), Refusal>)
      modifies this`activations
      ensures State() == Apply(old(State()), Step.BeginActivation(client, id, version))
      ensures r == match ActivationRefusal(old(State()), id) { case Some(e) => Err(e) case None => Ok(()) }
    {
      if id !in contracts {
        return Err(NotFound);
      }
      var before := contracts[id];
      if before.status != Draft {
        return Err(NotDraft);
      }
      var wanted := version;
      if wanted == 0 {
        wanted := before.version;
      }
      var built := BuildScheduleDates(before.start, before.end, before.kind);
      ScheduleIsUnique(before.start, before.end, before.kind, built, before.Schedule());
      if built.Err? {
        return Err(Schedule(built.error));
      }
      activations := activations[client := Activation(id, wanted, before)];
      return Ok(());
    }

    method CommitActivation(client: Id) returns (r: Result<(), Refusal>)
      requires client in activations
      modifies this
      ensures State() == Apply(old(State()), Step.CommitActivation(client))
      ensures var a := old(activations[client]);
              r.Ok? <==> && a.contract in old(contracts) && old(contracts)[a.contract].status == Draft
                         && old(contracts)[a.contract].version == a.version && a.before.Schedule().Ok?
    {
      var a := activations[client];
      activations := activations - {client};
      if a.contract !in contracts || contracts[a.contract].status != Draft || contracts[a.contract].version != a.version {
        return Err(ChangedByAnother);
      }
      var contractsBefore := contracts;
      var c := contracts[a.contract];
      contracts := contracts[a.contract := c.(status := Active, version := c.version + 1)];
      var written := CreateRevenueSchedule(a.contract, a.before);
      if written.Err? {
        contracts := contractsBefore;
        return Err(Schedule(written.error));
      }
      return Ok(());
    }

    method BeginRecognition(client: Id, row: Id) returns (r: Result<(), Refusal>)
      modifies this`recognitions
      ensures State() == Apply(old(State()), Step.BeginRecognition(client, row))
    {
      if row !in rows {
        return Err(NotFound);
      }
      var id := rows[row].contract;
      if id !in contracts {
        return Err(NotFound);
      }
      recognitions := recognitions[client := Recognition(row, id, contracts[id])];
      return Ok(());
    }

    method CommitRecognition(client: Id) returns (r: Result<Id, Refusal>)
      requires client in recognitions
      modifies this
      ensures State() == Apply(old(State()), Step.CommitRecognition(client))
      ensures r == match RecognitionRefusal(old(State()), old(recognitions[client])) {
                     case Some(e) => Err(e)
                     case None => Ok(old(nextId))
                   }
    {
      var rec := recognitions[client];
      recognitions := recognitions - {client};
      if rec.row !in rows || rows[rec.row].contract != rec.contract {
        return Err(NotFound);
      }
      var row := rows[rec.row];
      if row.status != Planned {
        return Err(NotPlanned);
      }
      var saleId := NewId();
      sales := sales[saleId := Sale(rec.read.customer, Some(rec.contract), row.entry.amount)];
      rows := rows[rec.row := row.(status := Recognized, sale := Some(saleId))];
      return Ok(saleId);
    }

    method UpdateRenewal(id: Id, version: nat) returns (r: Result<(), Refusal>)
      modifies this`contracts
      ensures State() == Apply(old(State()), Renew(id, version))
      ensures r.Ok? <==> id in old(contracts) && (version == 0 || old(contracts[id]).version == version)
    {
      if id !in contracts {
        return Err(NotFound);
      }
      var c := contracts[id];
      if version != 0 && c.version != version {
        return Err(ChangedByAnother);
      }
      contracts := contracts[id := c.(version := c.version + 1)];
      return Ok(());
    }

    method CheckMerge(target: Id, sources: seq<Id>) returns (r: Result<(), Refusal>)
      ensures r.Ok? <==> MergeAllowed(State(), target, sources)
    {
      if !Accessible(customers, target) {
        return Err(NotFound);
      }
      if |sources| == 0 || |sources| > 20 {
        return Err(InvalidInput);
      }
      var seen := {target};
      for i := 0 to |sources|
        invariant forall id :: id in seen <==> id == target || id in sources[..i]
        invariant forall k | 0 <= k < i :: sources[k] != target && Accessible(customers, sources[k])
        invariant forall j, k | 0 <= j < k < i :: sources[j] != sources[k]
      {
        if sources[i] in seen {
          return Err(InvalidInput);
        }
        seen := seen + {sources[i]};
        if !Accessible(customers, sources[i]) {
          return Err(NotFound);
        }
      }
      return Ok(());
    }

    method MergeCustomers(target: Id, sources: seq<Id>) returns (r: Result<(), Refusal>)
      modifies this`customers, this`contracts, this`sales
      ensures State() == Apply(old(State()), Merge(target, sources))
      ensures r.Ok? <==> MergeAllowed(old(State()), target, sources)
    {
      r := CheckMerge(target, sources);
      if r.Err? {
        return;
      }
      for i := 0 to |sources|
        invariant State() == MergedAll(old(State()), target, sources[..i])
      {
        MoveRecords(target, sources[i]);
        assert sources[..i + 1][..i] == sources[..i];
      }
      assert sources[..|sources|] == sources;
    }

    method MoveRecords(target: Id, source: Id)
      modifies this`customers, this`contracts, this`sales
      ensures State() == MergedOne(old(State()), target, source)
    {
      contracts := map c | c in contracts :: MovedContract(contracts[c], target, source);
      sales := map s | s in sales :: MovedSale(sales[s], target, source);
      if Accessible(customers, source) {
        customers := customers[source := Customer(false, Some(target))];
      }
    }

    method CreateSale(customer: Id, linkedTo: Option<Id>, amount: int) returns (r: Result<Id, Refusal>)
      modifies this
      ensures r.Ok? <==> amount >= 0 && Accessible(old(customers), customer)
                         && (linkedTo.Some? ==> linkedTo.value in old(contracts))
      ensures r.Ok? ==> r.value == old(nextId) && sales == old(sales)[r.value := Sale(customer, linkedTo, amount)]
      ensures State() == Apply(old(State()), SellDirectly(customer, linkedTo, amount))
    {
      if amount < 0 {
        return Err(InvalidInput);
      }
      if !Accessible(customers, customer) {
        return Err(NotFound);
      }
      if linkedTo.Some? && linkedTo.value !in contracts {
        return Err(InvalidInput);
      }
      var id := NewId();
      sales := sales[id := Sale(customer, linkedTo, amount)];
      return Ok(id);
    }
  }

  lemma NextPlanRow(id: Id, dates: seq<Date>, amounts: seq<int>, first: Id, i: nat)
    requires i < |dates| == |amounts|
    ensures PlanRows(id, dates[..i + 1], amounts[..i + 1], first)
         == PlanRows(id, dates[..i], amounts[..i], first)[first + i := Row(id, Entry(i + 1, dates[i], amounts[i]), Planned, None)]
  {
  }
}

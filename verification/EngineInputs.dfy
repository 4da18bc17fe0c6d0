/** Which inputs make a pass end early, and which leave a signal under the account it
    was first found for: both are about deals and contracts whose customer is not, or
    no longer, the account that a reader would expect. */
module EngineInputs {
  import opened Wrappers
  import opened SignalRules
  import opened Recommendations
  import opened EngineSpec
  import opened EngineScan
  import Rec = Reconciliation

  /** An open deal that is stalled or past its close date. */
  predicate IsLate(d: DealFacts, now: int, today: int) {
    d.open && (WholeDays(now - d.stageEntered) >= STALLED_DAYS || (d.closeDate.Some? && d.closeDate.value < today))
  }

  /** A contract in its renewal window. */
  predicate IsDue(c: ContractFacts, today: int) {
    0 <= c.endDate - today <= RENEWAL_DAYS
  }

  lemma LateDealsEmit(id: Id, d: DealFacts, now: int, today: int)
    ensures DealSignals(id, d, now, today) != [] <==> IsLate(d, now, today)
    ensures forall s | s in DealSignals(id, d, now, today) :: s.account == d.account
  {
  }

  lemma DueContractsEmit(c: ContractFacts, today: int)
    ensures ContractSignals(c, today) != [] <==> IsDue(c, today)
    ensures forall s | s in ContractSignals(c, today) :: s.account == c.account
  {
  }

  /** The accounts of deals and contracts that need attention have all been scanned. */
  ghost predicate AllScanned(f: Facts) {
    && (forall d | d in f.deals && IsLate(f.deals[d], f.now, f.today) :: f.deals[d].account in f.accounts)
    && (forall c | c in f.contracts && IsDue(c, f.today) :: c.account in f.accounts)
  }

  lemma UnscannedDealIsTouched(f: Facts, d: Id)
    requires d in f.deals && IsLate(f.deals[d], f.now, f.today)
    ensures f.deals[d].account in Touched(f)
  {
    LateDealsEmit(d, f.deals[d], f.now, f.today);
    var s := DealSignals(d, f.deals[d], f.now, f.today)[0];
    LiveSignalsHold(f, s);
    assert s in LiveSignals(f);
  }

  lemma UnscannedContractIsTouched(f: Facts, c: ContractFacts)
    requires c in f.contracts && IsDue(c, f.today)
    ensures c.account in Touched(f)
  {
    DueContractsEmit(c, f.today);
    var s := ContractSignals(c, f.today)[0];
    LiveSignalsHold(f, s);
    assert s in LiveSignals(f);
  }

  lemma TouchedIsScanned(f: Facts, s: Signal)
    requires AllScanned(f) && Holds(f, s)
    ensures s.account in f.accounts
  {
    if a :| a in f.accounts && s in AccountSignals(a, f.accounts[a], f.now) {
      KindsOfAccount(a, f.accounts[a], f.now, s);
    } else if d :| d in f.deals && s in DealSignals(d, f.deals[d], f.now, f.today) {
      LateDealsEmit(d, f.deals[d], f.now, f.today);
    } else {
      var c :| c in f.contracts && s in ContractSignals(c, f.today);
      DueContractsEmit(c, f.today);
    }
  }

  lemma TouchedAreScannedIff(f: Facts)
    ensures Touched(f) <= f.accounts.Keys <==> AllScanned(f)
  {
    if AllScanned(f) {
      forall a | a in Touched(f)
        ensures a in f.accounts
      {
        var s :| s in LiveSignals(f) && s.account == a;
        LiveSignalsHold(f, s);
        TouchedIsScanned(f, s);
      }
    } else if d :| d in f.deals && IsLate(f.deals[d], f.now, f.today) && f.deals[d].account !in f.accounts {
      UnscannedDealIsTouched(f, d);
    } else {
      var c :| c in f.contracts && IsDue(c, f.today) && c.account !in f.accounts;
      UnscannedContractIsTouched(f, c);
    }
  }

  /** The last stage of a pass dereferences a missing account exactly when an open
      deal that is late, or a contract in its renewal window, belongs to a customer
      that the account query leaves out: the queries for deals and contracts do not
      filter by customer. */
  lemma PassPanicsIff(f: Facts, before: AdviceRows, after: AdviceRows, panicked: bool, done: set<Id>)
    requires AdviceStageEnds(f, before, after, panicked, done)
    ensures panicked
       <==> || (exists d :: d in f.deals && IsLate(f.deals[d], f.now, f.today) && f.deals[d].account !in f.accounts)
            || (exists c :: c in f.contracts && IsDue(c, f.today) && c.account !in f.accounts)
  {
    TouchedAreScannedIff(f);
  }

  /** One stalled deal of a customer that is not scanned is enough. */
  lemma StalledDealOfUnscannedAccount(before: AdviceRows, after: AdviceRows, panicked: bool, done: set<Id>)
    ensures var f := Facts(map[], map["d" := DealFacts("inactive", true, 0, None)], [], STALLED_DAYS * DAY, STALLED_DAYS);
            && Consistent(f) && Touched(f) == {"inactive"}
            && (AdviceStageEnds(f, before, after, panicked, done) ==> panicked && after == before)
  {
    var f := Facts(map[], map["d" := DealFacts("inactive", true, 0, None)], [], STALLED_DAYS * DAY, STALLED_DAYS);
    UnscannedDealIsTouched(f, "d");
    forall s | s in LiveSignals(f)
      ensures s.account == "inactive"
    {
      LiveSignalsHold(f, s);
      LateDealsEmit("d", f.deals["d"], f.now, f.today);
    }
    assert Touched(f) == {"inactive"};
    if AdviceStageEnds(f, before, after, panicked, done) {
      assert done == {};
      NothingAdvised(f, before, after);
    }
  }

  lemma NothingAdvised(f: Facts, before: AdviceRows, after: AdviceRows)
    requires AdviceReconciled(f, before, after, {})
    ensures after == before
  {
    forall k: AdviceKey
      ensures (k in after <==> k in before) && (k in before ==> after[k] == before[k])
    {
      assert KeyReconciled(f, before, after, {}, k);
    }
  }

  // ----- Advice of an account that has gone quiet -----


  const CONTACTED := AccountFacts("o", Some(STALLED_DAYS * DAY), 0, 0, 1, 1, 0, "", "")

  /** Open advice that no rule calls for any more is withdrawn exactly when its account
      still has some signal: the last stage visits only such accounts. */
  lemma StaleAdviceIsWithdrawnIff(f: Facts, before: AdviceRows, after: AdviceRows, done: set<Id>, k: AdviceKey)
    requires AdviceStageEnds(f, before, after, false, done) && k in before && before[k].status == Open
    requires k.account in f.accounts ==> k.kind !in KindsOf(AdviceIn(f, k.account))
    ensures k !in after <==> k.account in Touched(f)
  {
    assert KeyReconciled(f, before, after, done, k);
  }

  /** An account in good order, scanned, with nothing to report: its open advice stays. */
  lemma QuietAccountKeepsAdvice(before: AdviceRows, after: AdviceRows, panicked: bool, done: set<Id>)
    requires AdviceStageEnds(Facts(map["a" := CONTACTED], map[], [], STALLED_DAYS * DAY, STALLED_DAYS),
                             before, after, panicked, done)
    ensures !panicked && after == before
  {
    var f := Facts(map["a" := CONTACTED], map[], [], STALLED_DAYS * DAY, STALLED_DAYS);
    assert AccountSignals("a", CONTACTED, f.now) == [];
    assert Touched(f) == {};
    NothingAdvised(f, before, after);
  }

  // ----- A deal that changes hands -----

  /** Two scanned accounts and a stalled deal of one of them. */
  function DealOf(account: Id): Facts {
    Facts(map["a" := CONTACTED, "b" := CONTACTED], map["d" := DealFacts(account, true, 0, None)], [],
          STALLED_DAYS * DAY, STALLED_DAYS)
  }

  lemma StalledItem(account: Id)
    ensures ItemOfSignal(Signal(DealStalled, Medium, Opportunity, "d", account, "d", None)) in SignalItems(DealOf(account))
  {
    var f := DealOf(account);
    var s := Signal(DealStalled, Medium, Opportunity, "d", account, "d", None);
    assert DealSignals("d", f.deals["d"], f.now, f.today)[0] == s;
    assert Holds(f, s);
    LiveSignalsHold(f, s);
  }

  /** A deal is found stalled under account a and then moves to account b. The next
      pass still finds it stalled, and the row still says a. */
  lemma MovedDealKeepsItsAccount(t: EngineState, u: EngineState)
    requires PassStep(EngineState(map[], map[], map[], []), t, DealOf("a")) && PassStep(t, u, DealOf("b"))
    ensures var k := SignalKey(DealStalled, Opportunity, "d");
            k in u.signals && u.signals[k].status == Rec.Live && u.signals[k].account == "a"
  {
    var k := SignalKey(DealStalled, Opportunity, "d");
    var none: Rec.Rows<SignalKey, SignalValue> := map[];
    var first := ItemOfSignal(Signal(DealStalled, Medium, Opportunity, "d", "a", "d", None));
    var second := ItemOfSignal(Signal(DealStalled, Medium, Opportunity, "d", "b", "d", None));
    StalledItem("a");
    StalledItem("b");
    Rec.ReconciledRow(none, t.signals, SignalItems(DealOf("a")), k);
    Rec.ReconciledRow(t.signals, u.signals, SignalItems(DealOf("b")), k);
    assert first.key == second.key == k;
  }
}

/** What one engine pass has to leave behind, as a function of the facts it read. */
module EngineSpec {
  import opened Wrappers
  import opened Ordering
  import opened SignalRules
  import opened RiskScoring
  import opened Recommendations
  import opened PassOrder
  import Rec = Reconciliation

  datatype SignalValue = SignalValue(severity: Severity, source: Id, renewal: Option<string>)

  datatype RiskValue = RiskValue(score: int, severity: Severity, factors: seq<Factor>)

  type SignalItem = Rec.Item<SignalKey, SignalValue>

  type RiskItem = Rec.Item<RiskKey, RiskValue>

  function ItemOfSignal(s: Signal): SignalItem {
    Rec.Item(s.Key(), s.account, SignalValue(s.severity, s.source, s.renewal))
  }

  function ItemOfRisk(r: Risk): RiskItem {
    Rec.Item(r.Key(), r.account, RiskValue(r.score, r.severity, r.factors))
  }

  ghost function LiveSignals(f: Facts): set<Signal> {
    (set a, s | a in f.accounts && s in AccountSignals(a, f.accounts[a], f.now) :: s)
    + (set d, s | d in f.deals && s in DealSignals(d, f.deals[d], f.now, f.today) :: s)
    + (set c, s | c in f.contracts && s in ContractSignals(c, f.today) :: s)
  }

  lemma LiveSignalsHold(f: Facts, s: Signal)
    ensures s in LiveSignals(f) <==> Holds(f, s)
  {
  }

  /** The accounts that have a signal: the keys of byAccount. */
  ghost function Touched(f: Facts): set<Id> {
    set s | s in LiveSignals(f) :: s.account
  }

  ghost function ListOf(f: Facts, a: Id): seq<Signal> {
    SignalsOf(f, Sorted(f.deals.Keys), a)
  }

  ghost function RisksFor(f: Facts, a: Id): seq<Risk> {
    RisksOf(a, ListOf(f, a))
  }

  ghost function LiveRisks(f: Facts): set<Risk> {
    set a, r | a in Touched(f) && r in RisksFor(f, a) :: r
  }

  ghost function SignalItems(f: Facts): set<SignalItem> {
    set s | s in LiveSignals(f) :: ItemOfSignal(s)
  }

  ghost function RiskItems(f: Facts): set<RiskItem> {
    set r | r in LiveRisks(f) :: ItemOfRisk(r)
  }

  lemma {:induction false} SortedEnumerates(ids: set<Id>)
    ensures Enumerates(Sorted(ids), ids)
  {
    forall i, j | 0 <= i < j < |Sorted(ids)|
      ensures Sorted(ids)[i] != Sorted(ids)[j]
    {
      LessIsTotal(Sorted(ids)[i], Sorted(ids)[j]);
    }
  }

  lemma ListMember(f: Facts, a: Id, s: Signal)
    ensures s in ListOf(f, a) <==> Holds(f, s) && s.account == a
  {
    SortedEnumerates(f.deals.Keys);
    ListsAreComplete(f, Sorted(f.deals.Keys), a, s);
  }

  lemma SignalItemsAreDistinct(f: Facts)
    requires Consistent(f)
    ensures Rec.OnePerKey(SignalItems(f))
  {
    forall i, j | i in SignalItems(f) && j in SignalItems(f) && i.key == j.key
      ensures i == j
    {
      var s :| s in LiveSignals(f) && ItemOfSignal(s) == i;
      var t :| t in LiveSignals(f) && ItemOfSignal(t) == j;
      LiveSignalsHold(f, s);
      LiveSignalsHold(f, t);
      KeysAreDistinct(f, s, t);
    }
  }

  lemma RiskBelongsToAccount(f: Facts, a: Id, r: Risk)
    requires r in RisksFor(f, a)
    ensures r.account == a && RiskHolds(a, ListOf(f, a), r.Key())
  {
    ScoresAreExplained(a, ListOf(f, a), r);
    assert HasRisk(RisksFor(f, a), r.Key());
    RiskIffSignal(a, ListOf(f, a), r.Key());
  }

  /** One entity is never at risk under two accounts. */
  lemma RiskHasOneAccount(f: Facts, a: Id, b: Id, k: RiskKey)
    requires Consistent(f) && RiskHolds(a, ListOf(f, a), k) && RiskHolds(b, ListOf(f, b), k)
    ensures a == b
  {
    match k.kind
    case RelationshipRisk =>
    case VocRisk =>
    case RenewalRisk =>
      var s :| s in ListOf(f, a) && s.kind == ContractExpiring && s.entity == k.entity;
      var t :| t in ListOf(f, b) && t.kind == ContractExpiring && t.entity == k.entity;
      ListMember(f, a, s);
      ListMember(f, b, t);
      Emitter(f, s);
      Emitter(f, t);
      ContractsAreDistinct(f, s, t);
    case DealRisk =>
      var s :| s in ListOf(f, a) && (s.kind == DealStalled || s.kind == CloseDatePassed) && s.entity == k.entity;
      var t :| t in ListOf(f, b) && (t.kind == DealStalled || t.kind == CloseDatePassed) && t.entity == k.entity;
      ListMember(f, a, s);
      ListMember(f, b, t);
      Emitter(f, s);
      Emitter(f, t);
      KindsOfDeal(k.entity, f.deals[k.entity], f.now, f.today, s);
      KindsOfDeal(k.entity, f.deals[k.entity], f.now, f.today, t);
  }

  lemma ExpiringAreDistinct(f: Facts, a: Id)
    requires Consistent(f)
    ensures forall s, t | s in ListOf(f, a) && t in ListOf(f, a) && s.kind == ContractExpiring && t.kind == ContractExpiring && s.entity == t.entity :: s == t
  {
    forall s, t | s in ListOf(f, a) && t in ListOf(f, a) && s.kind == ContractExpiring && t.kind == ContractExpiring && s.entity == t.entity
      ensures s == t
    {
      ListMember(f, a, s);
      ListMember(f, a, t);
      Emitter(f, s);
      Emitter(f, t);
      ContractsAreDistinct(f, s, t);
    }
  }

  /** Risk keys are pairwise distinct over a whole pass. */
  lemma RisksAreDistinct(f: Facts, a: Id, r: Risk, b: Id, q: Risk)
    requires Consistent(f) && r in RisksFor(f, a) && q in RisksFor(f, b) && r.Key() == q.Key()
    ensures r == q
  {
    RiskBelongsToAccount(f, a, r);
    RiskBelongsToAccount(f, b, q);
    RiskHasOneAccount(f, a, b, r.Key());
    ExpiringAreDistinct(f, a);
    RiskKeysAreDistinct(a, ListOf(f, a), r, q);
  }

  lemma RiskItemsAreDistinct(f: Facts)
    requires Consistent(f)
    ensures Rec.OnePerKey(RiskItems(f))
  {
    var live := LiveRisks(f);
    assert forall r | r in live :: exists a :: a in Touched(f) && r in RisksFor(f, a);
    forall r, q | r in live && q in live && r.Key() == q.Key()
      ensures r == q
    {
      var a :| a in Touched(f) && r in RisksFor(f, a);
      var b :| b in Touched(f) && q in RisksFor(f, b);
      RisksAreDistinct(f, a, r, b, q);
    }
  }

  // ---- advice -----------------------------------------------------------------

  datatype AdviceStatus = Open | Accepted | Dismissed

  datatype AdviceKey = AdviceKey(kind: AdviceType, account: Id)

  datatype AdviceRow = AdviceRow(priority: Priority, assignee: Id, due: int, status: AdviceStatus, task: Option<nat>)

  type AdviceRows = map<AdviceKey, AdviceRow>

  ghost function AdviceIn(f: Facts, a: Id): seq<Advice>
    requires a in f.accounts
  {
    AdviceOf(f.accounts[a].owner, OfKind(ListOf(f, a), QuoteRequested) != [], RisksFor(f, a), f.now)
  }

  /** The conflict clause: a decided row keeps its assignee and its due date. */
  function RefreshedAdvice(rows: AdviceRows, k: AdviceKey, a: Advice): AdviceRow {
    if k !in rows then AdviceRow(a.priority, a.assignee, a.due, Open, None)
    else
      var row := rows[k];
      if row.status == Open then row.(priority := a.priority, assignee := a.assignee, due := a.due)
      else row.(priority := a.priority)
  }

  ghost predicate AdviceRowFollows(before: AdviceRows, after: AdviceRows, k: AdviceKey, advice: seq<Advice>) {
    && (k in after <==> k.kind in KindsOf(advice) || (k in before && before[k].status != Open))
    && (forall a | a in advice && a.kind == k.kind :: k in after && after[k] == RefreshedAdvice(before, k, a))
    && (k.kind !in KindsOf(advice) && k in before && before[k].status != Open ==> k in after && after[k] == before[k])
  }

  /** The rows of these accounts follow their advice, all others are untouched. */
  ghost predicate AdviceReconciled(f: Facts, before: AdviceRows, after: AdviceRows, accounts: set<Id>)
    requires accounts <= f.accounts.Keys
  {
    forall k: AdviceKey :: KeyReconciled(f, before, after, accounts, k)
  }

  ghost predicate KeyReconciled(f: Facts, before: AdviceRows, after: AdviceRows, accounts: set<Id>, k: AdviceKey)
    requires accounts <= f.accounts.Keys
  {
    if k.account in accounts then AdviceRowFollows(before, after, k, AdviceIn(f, k.account))
    else (k in after <==> k in before) && (k in before ==> k in after && after[k] == before[k])
  }

  /** For an account that has signals, the open advice is exactly what recommend
      produces now, minus what somebody has decided about. */
  lemma OpenAdviceIsExact(f: Facts, before: AdviceRows, after: AdviceRows, accounts: set<Id>, k: AdviceKey)
    requires accounts <= f.accounts.Keys && k.account in accounts && AdviceReconciled(f, before, after, accounts)
    ensures (k in after && after[k].status == Open)
       <==> k.kind in KindsOf(AdviceIn(f, k.account)) && !(k in before && before[k].status != Open)
  {
    var advice := AdviceIn(f, k.account);
    assert KeyReconciled(f, before, after, accounts, k);
    if k.kind in KindsOf(advice) {
      var a :| a in advice && a.kind == k.kind;
    }
  }

  /** Decided advice is never reopened, withdrawn or handed to someone else. */
  lemma DecidedAdviceSurvives(f: Facts, before: AdviceRows, after: AdviceRows, accounts: set<Id>, k: AdviceKey)
    requires accounts <= f.accounts.Keys && AdviceReconciled(f, before, after, accounts)
    requires k in before && before[k].status != Open
    ensures k in after && after[k] == before[k].(priority := after[k].priority)
  {
    assert KeyReconciled(f, before, after, accounts, k);
    if k.account in accounts && k.kind in KindsOf(AdviceIn(f, k.account)) {
      var a :| a in AdviceIn(f, k.account) && a.kind == k.kind;
    }
  }

  lemma RowIsCurrent(before: AdviceRows, after: AdviceRows, k: AdviceKey, advice: seq<Advice>, a: Advice)
    requires AdviceRowFollows(before, after, k, advice) && a in advice && a.kind == k.kind
    ensures k in after && after[k].priority == a.priority
    ensures if k in before && before[k].status != Open
            then after[k].assignee == before[k].assignee && after[k].due == before[k].due
                 && after[k].status == before[k].status && after[k].task == before[k].task
            else after[k].assignee == a.assignee && after[k].due == a.due && after[k].status == Open
  {
  }

  /** Advice found now has a row with its priority; while it is OPEN the row has its
      assignee and due date as well, and once decided it keeps those it had. */
  lemma AdviceRowsAreCurrent(f: Facts, before: AdviceRows, after: AdviceRows, accounts: set<Id>, k: AdviceKey,
        a: Advice)
    requires accounts <= f.accounts.Keys && k.account in accounts && AdviceReconciled(f, before, after, accounts)
    requires a in AdviceIn(f, k.account) && a.kind == k.kind
    ensures k in after && after[k].priority == a.priority
    ensures if k in before && before[k].status != Open
            then after[k].assignee == before[k].assignee && after[k].due == before[k].due
                 && after[k].status == before[k].status && after[k].task == before[k].task
            else after[k].assignee == a.assignee && after[k].due == a.due && after[k].status == Open
  {
    assert KeyReconciled(f, before, after, accounts, k);
    RowIsCurrent(before, after, k, AdviceIn(f, k.account), a);
  }

  lemma AdviceOutcomeIsDetermined(f: Facts, before: AdviceRows, a: AdviceRows, b: AdviceRows, accounts: set<Id>)
    requires accounts <= f.accounts.Keys
    requires AdviceReconciled(f, before, a, accounts) && AdviceReconciled(f, before, b, accounts)
    ensures a == b
  {
    forall k
      ensures k in a <==> k in b
      ensures k in a ==> k in b && a[k] == b[k]
    {
      assert KeyReconciled(f, before, a, accounts, k) && KeyReconciled(f, before, b, accounts, k);
      if k.account in accounts && k.kind in KindsOf(AdviceIn(f, k.account)) {
        var x :| x in AdviceIn(f, k.account) && x.kind == k.kind;
      }
    }
  }

  lemma SecondRowIsTheFirst(before: AdviceRows, after: AdviceRows, again: AdviceRows, k: AdviceKey, advice: seq<Advice>)
    requires AdviceRowFollows(before, after, k, advice) && AdviceRowFollows(after, again, k, advice)
    ensures k in after <==> k in again
    ensures k in after ==> k in again && after[k] == again[k]
  {
  }

  lemma SecondKeyIsTheFirst(f: Facts, before: AdviceRows, after: AdviceRows, again: AdviceRows, accounts: set<Id>,
        k: AdviceKey)
    requires accounts <= f.accounts.Keys
    requires KeyReconciled(f, before, after, accounts, k) && KeyReconciled(f, after, again, accounts, k)
    ensures k in after <==> k in again
    ensures k in after ==> k in again && after[k] == again[k]
  {
    if k.account in accounts {
      SecondRowIsTheFirst(before, after, again, k, AdviceIn(f, k.account));
    }
  }

  /** A second pass over the same facts leaves the advice as it is. */
  lemma SecondAdviceChangesNothing(f: Facts, before: AdviceRows, after: AdviceRows, again: AdviceRows,
        accounts: set<Id>)
    requires accounts <= f.accounts.Keys
    requires AdviceReconciled(f, before, after, accounts) && AdviceReconciled(f, after, again, accounts)
    ensures again == after
  {
    forall k
      ensures k in after <==> k in again
      ensures k in after ==> k in again && after[k] == again[k]
    {
      SecondKeyIsTheFirst(f, before, after, again, accounts, k);
    }
  }
}

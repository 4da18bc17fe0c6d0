/** The intelligence tables: one engine pass, and the decisions people take on its
    results in between. */
module EngineScan {
  import opened Wrappers
  import opened Ordering
  import opened SignalRules
  import opened RiskScoring
  import opened Recommendations
  import opened PassOrder
  import opened EngineSpec
  import opened Engine
  import Rec = Reconciliation
  import Sums

  function SignalItemList(signals: seq<Signal>): seq<SignalItem> {
    seq(|signals|, i requires 0 <= i < |signals| => ItemOfSignal(signals[i]))
  }

  function RiskItemList(risks: seq<Risk>): seq<RiskItem> {
    seq(|risks|, i requires 0 <= i < |risks| => ItemOfRisk(risks[i]))
  }

  type RiskLists = map<Id, seq<Risk>>

  /** Every list holds the risks of its account. */
  ghost predicate AllScored(f: Facts, risks: RiskLists) {
    && risks.Keys == Touched(f)
    && forall a | a in risks :: risks[a] == RisksFor(f, a)
  }

  lemma InSignalItemList(signals: seq<Signal>, i: SignalItem)
    ensures i in SignalItemList(signals) <==> exists s :: s in signals && ItemOfSignal(s) == i
  {
    var items := SignalItemList(signals);
    if i in items {
      var n :| 0 <= n < |items| && items[n] == i;
      assert signals[n] in signals;
    }
    if s :| s in signals && ItemOfSignal(s) == i {
      var n :| 0 <= n < |signals| && signals[n] == s;
      assert items[n] == i;
    }
  }

  lemma InRiskItemList(risks: seq<Risk>, i: RiskItem)
    ensures i in RiskItemList(risks) <==> exists r :: r in risks && ItemOfRisk(r) == i
  {
    var items := RiskItemList(risks);
    if i in items {
      var n :| 0 <= n < |items| && items[n] == i;
      assert risks[n] in risks;
    }
    if r :| r in risks && ItemOfRisk(r) == i {
      var n :| 0 <= n < |risks| && risks[n] == r;
      assert items[n] == i;
    }
  }

  function SignalItemLists(lists: Lists): map<Id, seq<SignalItem>> {
    map a | a in lists :: SignalItemList(lists[a])
  }

  function RiskItemLists(risks: RiskLists): map<Id, seq<RiskItem>> {
    map a | a in risks :: RiskItemList(risks[a])
  }

  lemma SignalItemsCollected(f: Facts, lists: Lists, order: seq<Id>)
    requires Collected(f, lists, order)
    ensures Rec.AllItems(SignalItemLists(lists)) == SignalItems(f)
  {
    forall i
      ensures i in Rec.AllItems(SignalItemLists(lists)) <==> i in SignalItems(f)
    {
      if i in Rec.AllItems(SignalItemLists(lists)) {
        var a :| a in lists && i in SignalItemLists(lists)[a];
        InSignalItemList(lists[a], i);
        var s :| s in lists[a] && ItemOfSignal(s) == i;
        CollectedMember(f, lists, order, a, s);
      }
      if i in SignalItems(f) {
        var s :| s in LiveSignals(f) && ItemOfSignal(s) == i;
        CollectedMember(f, lists, order, s.account, s);
        InSignalItemList(lists[s.account], i);
        assert i in SignalItemLists(lists)[s.account];
      }
    }
  }

  lemma RiskItemsCollected(f: Facts, risks: RiskLists)
    requires AllScored(f, risks)
    ensures Rec.AllItems(RiskItemLists(risks)) == RiskItems(f)
  {
    forall i
      ensures i in Rec.AllItems(RiskItemLists(risks)) <==> i in RiskItems(f)
    {
      if i in Rec.AllItems(RiskItemLists(risks)) {
        var a :| a in risks && i in RiskItemLists(risks)[a];
        InRiskItemList(risks[a], i);
        var r :| r in risks[a] && ItemOfRisk(r) == i;
        RiskIsLive(f, risks, a, r);
      }
      if i in RiskItems(f) {
        var r :| r in LiveRisks(f) && ItemOfRisk(r) == i;
        var a := LiveRiskIsListed(f, risks, r);
        InRiskItemList(risks[a], i);
        assert i in RiskItemLists(risks)[a];
      }
    }
  }

  lemma RiskIsLive(f: Facts, risks: RiskLists, a: Id, r: Risk)
    requires AllScored(f, risks) && a in risks && r in risks[a]
    ensures r in LiveRisks(f)
  {
  }

  lemma LiveRiskIsListed(f: Facts, risks: RiskLists, r: Risk) returns (a: Id)
    requires AllScored(f, risks) && r in LiveRisks(f)
    ensures a in risks && r in risks[a]
  {
    a :| a in Touched(f) && r in RisksFor(f, a);
  }

  method ScoreOne(f: Facts, lists: Lists, ghost order: seq<Id>, a: Id) returns (scored: seq<Risk>)
    requires Collected(f, lists, order) && a in lists
    ensures scored == RisksFor(f, a)
  {
    scored := ScoreRisks(a, lists[a]);
    assert ListIn(lists, a) == SignalsOf(f, order, a);
    SortedEnumerates(f.deals.Keys);
    RisksIgnoreOrder(f, order, Sorted(f.deals.Keys), a);
  }

  function RiskKeysOf(risks: seq<Risk>): set<RiskKey> {
    set r | r in risks :: r.Key()
  }

  ghost function RiskKeysIn(risks: RiskLists): set<RiskKey> {
    set a, r | a in risks && r in risks[a] :: r.Key()
  }

  ghost function ScoresOf(f: Facts, accounts: set<Id>): RiskLists {
    map a | a in accounts :: RisksFor(f, a)
  }

  ghost function Among(all: RiskLists, accounts: set<Id>): RiskLists {
    map a | a in all && a in accounts :: all[a]
  }

  lemma AmongOneMore(all: RiskLists, accounts: set<Id>, a: Id)
    requires a in all
    ensures Among(all, accounts + {a}) == Among(all, accounts)[a := all[a]]
  {
  }

  lemma KeysOneMore(before: RiskLists, a: Id, scored: seq<Risk>)
    requires a !in before
    ensures RiskKeysIn(before[a := scored]) == RiskKeysIn(before) + RiskKeysOf(scored)
  {
    var after := before[a := scored];
    forall k
      ensures k in RiskKeysIn(after) <==> k in RiskKeysIn(before) + RiskKeysOf(scored)
    {
      if b, r: Risk :| b in before && r in before[b] && r.Key() == k {
        assert b in after && r in after[b];
      }
      if r: Risk :| r in scored && r.Key() == k {
        assert a in after && r in after[a];
      }
    }
  }

  method ScoreAll(f: Facts, lists: Lists, ghost order: seq<Id>) returns (risks: RiskLists, live: set<RiskKey>)
    requires Collected(f, lists, order)
    ensures AllScored(f, risks) && live == Rec.KeysOf(RiskItems(f))
  {
    risks, live := map[], {};
    ghost var expected := ScoresOf(f, lists.Keys);
    var todo := lists.Keys;
    while todo != {}
      invariant todo <= lists.Keys
      invariant risks == Among(expected, lists.Keys - todo) && live == RiskKeysIn(risks)
      decreases todo
    {
      var a :| a in todo;
      var scored := ScoreOne(f, lists, order, a);
      Sums.VisitOneMore(lists.Keys, todo, a);
      AmongOneMore(expected, lists.Keys - todo, a);
      KeysOneMore(risks, a, scored);
      risks, live, todo := risks[a := scored], live + RiskKeysOf(scored), todo - {a};
    }
    assert lists.Keys - todo == lists.Keys;
    TouchedAreTheLists(f, lists, order);
    LiveRiskKeys(f, risks);
  }

  lemma LiveRiskKeys(f: Facts, risks: RiskLists)
    requires AllScored(f, risks)
    ensures RiskKeysIn(risks) == Rec.KeysOf(RiskItems(f))
  {
    forall k
      ensures k in RiskKeysIn(risks) <==> k in Rec.KeysOf(RiskItems(f))
    {
      if a, r: Risk :| a in risks && r in risks[a] && r.Key() == k {
        RiskIsLive(f, risks, a, r);
        assert ItemOfRisk(r) in RiskItems(f);
      }
      if i :| i in RiskItems(f) && i.key == k {
        var r :| r in LiveRisks(f) && ItemOfRisk(r) == i;
        var a := LiveRiskIsListed(f, risks, r);
      }
    }
  }

  datatype Task = Task(account: Id, assignee: Id, due: int, high: bool)

  datatype Summary = Summary(signalsInserted: int, signalsResolved: nat, risksInserted: int, risksResolved: nat)

  datatype EngineState = EngineState(
    signals: Rec.Rows<SignalKey, SignalValue>, risks: Rec.Rows<RiskKey, RiskValue>, advice: AdviceRows, tasks: seq<Task>)

  ghost predicate PassStep(s: EngineState, t: EngineState, f: Facts) {
    && Rec.Reconciled(s.signals, t.signals, SignalItems(f))
    && Rec.Reconciled(s.risks, t.risks, RiskItems(f))
    && (exists panicked, done :: AdviceStageEnds(f, s.advice, t.advice, panicked, done))
    && t.tasks == s.tasks
  }

  /** The summary of a pass counts the rows it inserted and the rows it resolved. */
  ghost predicate Counts(summary: Summary, s: EngineState, t: EngineState) {
    && summary.signalsInserted == |t.signals.Keys| - |s.signals.Keys|
    && summary.risksInserted == |t.risks.Keys| - |s.risks.Keys|
    && summary.signalsResolved == |Rec.NewlyResolved(s.signals, t.signals)|
    && summary.risksResolved == |Rec.NewlyResolved(s.risks, t.risks)|
  }

  ghost function SignalIgnored(s: EngineState, k: SignalKey): EngineState
    requires k in s.signals
  {
    s.(signals := s.signals[k := s.signals[k].(status := Rec.Decided)])
  }

  ghost function RiskAccepted(s: EngineState, k: RiskKey): EngineState
    requires k in s.risks
  {
    s.(risks := s.risks[k := s.risks[k].(status := Rec.Decided)])
  }

  ghost function AdviceAccepted(s: EngineState, k: AdviceKey, assignee: Option<Id>, due: Option<int>): EngineState
    requires k in s.advice
  {
    var row := s.advice[k];
    var to := if assignee.Some? then assignee.value else row.assignee;
    var on := if due.Some? then due.value else row.due;
    s.(advice := s.advice[k := row.(status := Accepted, task := Some(|s.tasks|), assignee := to, due := on)],
       tasks := s.tasks + [Task(k.account, to, on, row.priority == HighPriority)])
  }

  ghost function AdviceDismissed(s: EngineState, k: AdviceKey): EngineState
    requires k in s.advice
  {
    s.(advice := s.advice[k := s.advice[k].(status := Dismissed)])
  }

  class Tables {
    const signals: Rec.Table<SignalKey, SignalValue>
    const risks: Rec.Table<RiskKey, RiskValue>
    var advice: AdviceRows
    var tasks: seq<Task>

    constructor ()
      ensures signals.rows == map[] && risks.rows == map[] && advice == map[] && tasks == []
      ensures fresh(signals) && fresh(risks)
    {
      signals := new Rec.Table();
      risks := new Rec.Table();
      advice, tasks := map[], [];
    }

    /** The upserts of persistRecommendations, then the withdrawal. */
    method PersistAdvice(account: Id, list: seq<Advice>)
      requires OncePerType(list)
      modifies this`advice
      ensures forall k: AdviceKey | k.account == account :: AdviceRowFollows(old(advice), advice, k, list)
      ensures forall k: AdviceKey | k.account != account :: (k in advice <==> k in old(advice)) && (k in advice ==> advice[k] == old(advice)[k])
    {
      for i := 0 to |list|
        invariant AdviceUpserted(old(advice), advice, account, list[..i])
      {
        NextAdvice(old(advice), advice, account, list, i);
        var k := AdviceKey(list[i].kind, account);
        advice := advice[k := RefreshedAdvice(advice, k, list[i])];
      }
      assert list[..|list|] == list;
      var live := KindsOf(list);
      ghost var upserted := advice;
      advice := map k | k in advice && !(k.account == account && advice[k].status == Open && k.kind !in live) :: advice[k];
      Withdrawn(old(advice), upserted, advice, account, list);
    }

    /** One pass of scan. A signal of an account that was not scanned makes the last
        stage dereference a missing account: the run ends there. */
    method Scan(f: Facts) returns (summary: Summary, panicked: bool, ghost done: set<Id>)
      requires Consistent(f)
      modifies this`advice, signals, risks
      ensures PassStep(old(State()), State(), f)
      ensures Counts(summary, old(State()), State())
      ensures AdviceStageEnds(f, old(advice), advice, panicked, done)
    {
      var lists, live, order := CollectSignals(f);
      var signalsInserted, signalsResolved := ReconcileSignals(f, lists, live, order);
      var scored, riskLive := ScoreAll(f, lists, order);
      var risksInserted, risksResolved := ReconcileRisks(f, scored, riskLive);
      summary := Summary(signalsInserted, signalsResolved, risksInserted, risksResolved);
      panicked, done := ReconcileAdvice(f, lists, scored, order);
    }

    method ReconcileSignals(f: Facts, lists: Lists, live: set<SignalKey>, ghost order: seq<Id>)
          returns (inserted: int, resolved: nat)
      requires Consistent(f) && Collected(f, lists, order) && live == Rec.KeysOf(SignalItems(f))
      modifies signals
      ensures Rec.Reconciled(old(signals.rows), signals.rows, SignalItems(f))
      ensures inserted == |signals.rows.Keys| - |old(signals.rows).Keys|
      ensures resolved == |Rec.NewlyResolved(old(signals.rows), signals.rows)|
    {
      SignalItemsCollected(f, lists, order);
      SignalItemsAreDistinct(f);
      inserted := signals.PersistAll(SignalItemLists(lists));
      Rec.ResolvedAreTheStale(old(signals.rows), signals.rows, SignalItems(f));
      resolved := signals.ResolveStale(live);
    }

    method ReconcileRisks(f: Facts, scored: RiskLists, live: set<RiskKey>) returns (inserted: int, resolved: nat)
      requires Consistent(f) && AllScored(f, scored) && live == Rec.KeysOf(RiskItems(f))
      modifies risks
      ensures Rec.Reconciled(old(risks.rows), risks.rows, RiskItems(f))
      ensures inserted == |risks.rows.Keys| - |old(risks.rows).Keys|
      ensures resolved == |Rec.NewlyResolved(old(risks.rows), risks.rows)|
    {
      RiskItemsCollected(f, scored);
      RiskItemsAreDistinct(f);
      inserted := risks.PersistAll(RiskItemLists(scored));
      Rec.ResolvedAreTheStale(old(risks.rows), risks.rows, RiskItems(f));
      resolved := risks.ResolveStale(live);
    }

    /** The round of an account, if it was scanned. */
    method AdviseNext(f: Facts, lists: Lists, scored: RiskLists, ghost order: seq<Id>, a: Id,
                      ghost start: AdviceRows, ghost done: set<Id>) returns (panicked: bool)
      requires Collected(f, lists, order) && a in lists && a in scored && scored[a] == RisksFor(f, a)
      requires done <= f.accounts.Keys && a !in done && AdviceReconciled(f, start, advice, done)
      modifies this`advice
      ensures panicked <==> a !in f.accounts
      ensures if panicked then advice == old(advice) else AdviceReconciled(f, start, advice, done + {a})
    {
      panicked := a !in f.accounts;
      if !panicked {
        AdviseAccount(f, lists, scored, order, a, start, done);
      }
    }

    method AdviseAccount(f: Facts, lists: Lists, scored: RiskLists, ghost order: seq<Id>, a: Id,
                         ghost start: AdviceRows, ghost done: set<Id>)
      requires Collected(f, lists, order) && a in lists && a in f.accounts
      requires a in scored && scored[a] == RisksFor(f, a)
      requires done <= f.accounts.Keys && a !in done && AdviceReconciled(f, start, advice, done)
      modifies this`advice
      ensures AdviceReconciled(f, start, advice, done + {a})
    {
      var list := Recommend(f.accounts[a].owner, lists[a], scored[a], f.now);
      AdviceIgnoresOrder(f, lists, order, a);
      AdviceIff(f.accounts[a].owner, OfKind(lists[a], QuoteRequested) != [], scored[a], f.now, AdvanceDeal);
      assert list == AdviceIn(f, a);
      PersistAdvice(a, list);
      OneMoreAccount(f, start, old(advice), advice, done, a);
    }

    method AdviseAll(f: Facts, lists: Lists, scored: RiskLists, ghost order: seq<Id>)
          returns (panicked: bool, ghost done: set<Id>)
      requires Collected(f, lists, order)
      requires scored.Keys == lists.Keys && forall a | a in scored :: scored[a] == RisksFor(f, a)
      modifies this`advice
      ensures done <= lists.Keys && done <= f.accounts.Keys && AdviceReconciled(f, old(advice), advice, done)
      ensures panicked <==> !(lists.Keys <= f.accounts.Keys)
      ensures !panicked ==> done == lists.Keys
    {
      panicked, done := false, {};
      ghost var start := advice;
      var todo := lists.Keys;
      NoAccountYet(f, start);
      while todo != {}
        invariant todo <= lists.Keys && done == lists.Keys - todo && done <= f.accounts.Keys
        invariant AdviceReconciled(f, start, advice, done)
        decreases todo
      {
        var a :| a in todo;
        panicked := AdviseNext(f, lists, scored, order, a, start, done);
        if panicked {
          break;
        }
        Sums.VisitOneMore(lists.Keys, todo, a);
        todo := todo - {a};
        done := lists.Keys - todo;
      }
    }

    method ReconcileAdvice(f: Facts, lists: Lists, scored: RiskLists, ghost order: seq<Id>)
          returns (panicked: bool, ghost done: set<Id>)
      requires Collected(f, lists, order) && AllScored(f, scored)
      modifies this`advice
      ensures AdviceStageEnds(f, old(advice), advice, panicked, done)
    {
      TouchedAreTheLists(f, lists, order);
      panicked, done := AdviseAll(f, lists, scored, order);
    }

    /** IgnoreSignal. */
    method IgnoreSignal(k: SignalKey) returns (found: bool)
      modifies signals
      ensures found <==> k in old(signals.rows)
      ensures State() == if found then SignalIgnored(old(State()), k) else old(State())
      ensures found ==> signals.rows[k].status == Rec.Decided
    {
      found := signals.Decide(k);
    }

    /** AcceptRisk: a reason is required, the current status does not matter. */
    method AcceptRisk(k: RiskKey, reasonGiven: bool) returns (done: bool)
      modifies risks
      ensures done <==> reasonGiven && k in old(risks.rows)
      ensures State() == if done then RiskAccepted(old(State()), k) else old(State())
      ensures done ==> risks.rows[k].status == Rec.Decided
    {
      if !reasonGiven {
        return false;
      }
      done := risks.Decide(k);
    }

    /** AcceptRecommendation: open advice becomes a task. */
    method AcceptAdvice(k: AdviceKey, assignee: Option<Id>, due: Option<int>) returns (done: bool)
      modifies this`advice, this`tasks
      ensures done <==> k in old(advice) && old(advice)[k].status == Open
      ensures State() == if done then AdviceAccepted(old(State()), k, assignee, due) else old(State())
      ensures done ==>
                && advice[k].status == Accepted && advice[k].task == Some(|old(tasks)|)
                && tasks == old(tasks) + [Task(k.account, if assignee.Some? then assignee.value else old(advice)[k].assignee,
                                               if due.Some? then due.value else old(advice)[k].due,
                                               old(advice)[k].priority == HighPriority)]
    {
      if k !in advice || advice[k].status != Open {
        return false;
      }
      var row := advice[k];
      var to := if assignee.Some? then assignee.value else row.assignee;
      var on := if due.Some? then due.value else row.due;
      tasks := tasks + [Task(k.account, to, on, row.priority == HighPriority)];
      advice := advice[k := row.(status := Accepted, task := Some(|tasks| - 1), assignee := to, due := on)];
      return true;
    }

    /** DismissRecommendation: a reason is required. */
    method DismissAdvice(k: AdviceKey, reasonGiven: bool) returns (done: bool)
      modifies this`advice
      ensures done <==> reasonGiven && k in old(advice) && old(advice)[k].status == Open
      ensures State() == if done then AdviceDismissed(old(State()), k) else old(State())
      ensures done ==> advice[k].status == Dismissed && tasks == old(tasks)
    {
      if !reasonGiven || k !in advice || advice[k].status != Open {
        return false;
      }
      advice := advice[k := advice[k].(status := Dismissed)];
      return true;
    }

    ghost function State(): EngineState
      reads this, signals, risks
    {
      EngineState(signals.rows, risks.rows, advice, tasks)
    }
  }

  ghost predicate AdviceStageEnds(f: Facts, before: AdviceRows, after: AdviceRows, panicked: bool, done: set<Id>) {
    && (panicked <==> !(Touched(f) <= f.accounts.Keys))
    && done <= Touched(f) * f.accounts.Keys
    && AdviceReconciled(f, before, after, done)
    && (!panicked ==> done == Touched(f))
  }

  lemma NoAccountYet(f: Facts, advice: AdviceRows)
    ensures AdviceReconciled(f, advice, advice, {})
  {
  }

  ghost predicate IsUpserted(before: AdviceRows, now: AdviceRows, account: Id, a: Advice) {
    var k := AdviceKey(a.kind, account);
    k in now && now[k] == RefreshedAdvice(before, k, a)
  }

  ghost predicate AdviceUpserted(before: AdviceRows, now: AdviceRows, account: Id, list: seq<Advice>) {
    && (forall i | 0 <= i < |list| :: IsUpserted(before, now, account, list[i]))
    && (forall k: AdviceKey | k.account != account || k.kind !in KindsOf(list) ::
          (k in now <==> k in before) && (k in now ==> now[k] == before[k]))
  }

  lemma NextAdvice(before: AdviceRows, now: AdviceRows, account: Id, list: seq<Advice>, i: nat)
    requires OncePerType(list) && i < |list| && AdviceUpserted(before, now, account, list[..i])
    ensures var k := AdviceKey(list[i].kind, account);
            AdviceUpserted(before, now[k := RefreshedAdvice(now, k, list[i])], account, list[..i + 1])
  {
    KindsGrow(list, i);
    var k := AdviceKey(list[i].kind, account);
    var next := now[k := RefreshedAdvice(now, k, list[i])];
    var upto := list[..i + 1];
    forall j | 0 <= j < |upto|
      ensures IsUpserted(before, next, account, upto[j])
    {
      assert j < i ==> list[..i][j] == list[j] && list[j].kind != list[i].kind;
    }
  }

  lemma KindsGrow(list: seq<Advice>, i: nat)
    requires OncePerType(list) && i < |list|
    ensures list[i].kind !in KindsOf(list[..i])
    ensures KindsOf(list[..i + 1]) == KindsOf(list[..i]) + {list[i].kind}
  {
  }

  lemma Withdrawn(before: AdviceRows, upserted: AdviceRows, after: AdviceRows, account: Id, list: seq<Advice>)
    requires AdviceUpserted(before, upserted, account, list)
    requires after == map k | k in upserted && !(k.account == account && upserted[k].status == Open && k.kind !in KindsOf(list)) :: upserted[k]
    ensures forall k: AdviceKey | k.account == account :: AdviceRowFollows(before, after, k, list)
    ensures forall k: AdviceKey | k.account != account :: (k in after <==> k in before) && (k in after ==> after[k] == before[k])
  {
  }

  lemma AdviceIgnoresOrder(f: Facts, lists: Lists, order: seq<Id>, a: Id)
    requires Collected(f, lists, order) && a in lists
    ensures OfKind(lists[a], QuoteRequested) == OfKind(ListOf(f, a), QuoteRequested)
  {
    assert ListIn(lists, a) == SignalsOf(f, order, a);
    SortedEnumerates(f.deals.Keys);
    OtherKindsIgnoreOrder(f, order, Sorted(f.deals.Keys), a, QuoteRequested);
  }

  lemma OneMoreAccount(f: Facts, start: AdviceRows, before: AdviceRows, after: AdviceRows, done: set<Id>, a: Id)
    requires done <= f.accounts.Keys && a in f.accounts && a !in done && AdviceReconciled(f, start, before, done)
    requires forall k: AdviceKey | k.account == a :: AdviceRowFollows(before, after, k, AdviceIn(f, a))
    requires forall k: AdviceKey | k.account != a :: (k in after <==> k in before) && (k in after ==> after[k] == before[k])
    ensures AdviceReconciled(f, start, after, done + {a})
  {
    forall k: AdviceKey
      ensures KeyReconciled(f, start, after, done + {a}, k)
    {
      assert KeyReconciled(f, start, before, done, k);
      if k.account == a {
        AdviceRowCongruent(start, before, after, k, AdviceIn(f, a));
      } else if k.account in done {
        AdviceRowCopied(start, before, after, k, AdviceIn(f, k.account));
      }
    }
  }

  lemma AdviceRowCongruent(start: AdviceRows, before: AdviceRows, after: AdviceRows, k: AdviceKey, advice: seq<Advice>)
    requires (k in start <==> k in before) && (k in start ==> before[k] == start[k])
    requires AdviceRowFollows(before, after, k, advice)
    ensures AdviceRowFollows(start, after, k, advice)
  {
  }

  lemma AdviceRowCopied(start: AdviceRows, before: AdviceRows, after: AdviceRows, k: AdviceKey, advice: seq<Advice>)
    requires AdviceRowFollows(start, before, k, advice)
    requires (k in after <==> k in before) && (k in after ==> after[k] == before[k])
    ensures AdviceRowFollows(start, after, k, advice)
  {
  }

  // ---- whole runs -------------------------------------------------------------

  /** A pass over whatever the CRM holds at the time, or one serial user action. */
  ghost predicate Next(s: EngineState, t: EngineState) {
    || (exists f: Facts :: Consistent(f) && PassStep(s, t, f))
    || (exists k :: k in s.signals && t == SignalIgnored(s, k))
    || (exists k :: k in s.risks && t == RiskAccepted(s, k))
    || (exists k, assignee, due :: k in s.advice && s.advice[k].status == Open && t == AdviceAccepted(s, k, assignee, due))
    || (exists k :: k in s.advice && s.advice[k].status == Open && t == AdviceDismissed(s, k))
  }

  ghost predicate IsRun(states: seq<EngineState>) {
    forall i | 0 < i < |states| :: Next(states[i - 1], states[i])
  }

  /** What people decided in s still stands in t. */
  ghost predicate DecisionsStand(s: EngineState, t: EngineState) {
    && (forall k | k in s.signals && s.signals[k].status == Rec.Decided :: k in t.signals && t.signals[k].status == Rec.Decided)
    && (forall k | k in s.risks && s.risks[k].status == Rec.Decided :: k in t.risks && t.risks[k].status == Rec.Decided)
    && (forall k | k in s.advice && s.advice[k].status != Open :: k in t.advice && AnswerStands(s.advice[k], t.advice[k]))
  }

  ghost predicate AnswerStands(before: AdviceRow, after: AdviceRow) {
    after == before.(priority := after.priority)
  }

  lemma PassKeepsDecisions(s: EngineState, t: EngineState, f: Facts)
    requires PassStep(s, t, f)
    ensures DecisionsStand(s, t)
  {
    forall k | k in s.signals && s.signals[k].status == Rec.Decided
      ensures k in t.signals && t.signals[k].status == Rec.Decided
    {
      Rec.DecisionSurvives(s.signals, t.signals, SignalItems(f), k);
    }
    forall k | k in s.risks && s.risks[k].status == Rec.Decided
      ensures k in t.risks && t.risks[k].status == Rec.Decided
    {
      Rec.DecisionSurvives(s.risks, t.risks, RiskItems(f), k);
    }
    var panicked, done :| AdviceStageEnds(f, s.advice, t.advice, panicked, done);
    forall k | k in s.advice && s.advice[k].status != Open
      ensures k in t.advice && AnswerStands(s.advice[k], t.advice[k])
    {
      DecidedAdviceSurvives(f, s.advice, t.advice, done, k);
    }
  }

  lemma StepKeepsDecisions(s: EngineState, t: EngineState)
    requires Next(s, t)
    ensures DecisionsStand(s, t)
  {
    if f: Facts :| Consistent(f) && PassStep(s, t, f) {
      PassKeepsDecisions(s, t, f);
    } else {
      ActionKeepsDecisions(s, t);
    }
  }

  lemma ActionKeepsDecisions(s: EngineState, t: EngineState)
    requires || (exists k :: k in s.signals && t == SignalIgnored(s, k))
             || (exists k :: k in s.risks && t == RiskAccepted(s, k))
             || (exists k, assignee, due :: k in s.advice && s.advice[k].status == Open && t == AdviceAccepted(s, k, assignee, due))
             || (exists k :: k in s.advice && s.advice[k].status == Open && t == AdviceDismissed(s, k))
    ensures DecisionsStand(s, t)
  {
  }

  /** A second pass over the same facts opens nothing and resolves nothing: the
      tables are as the first one left them, whatever the orders of ranging. */
  lemma SecondPassIsQuiet(s: EngineState, t: EngineState, u: EngineState, f: Facts, summary: Summary)
    requires PassStep(s, t, f) && PassStep(t, u, f) && Touched(f) <= f.accounts.Keys
    requires Counts(summary, t, u)
    ensures u == t && summary == Summary(0, 0, 0, 0)
  {
    SecondPassKeepsTables(s, t, u, f);
    NothingCounted(t, summary);
  }

  lemma SecondPassKeepsTables(s: EngineState, t: EngineState, u: EngineState, f: Facts)
    requires PassStep(s, t, f) && PassStep(t, u, f) && Touched(f) <= f.accounts.Keys
    ensures u == t
  {
    Rec.SecondPassChangesNothing(s.signals, t.signals, u.signals, SignalItems(f));
    Rec.SecondPassChangesNothing(s.risks, t.risks, u.risks, RiskItems(f));
    SecondAdviceStageIsQuiet(s.advice, t.advice, u.advice, f);
  }

  lemma SecondAdviceStageIsQuiet(s: AdviceRows, t: AdviceRows, u: AdviceRows, f: Facts)
    requires Touched(f) <= f.accounts.Keys
    requires exists panicked, done :: AdviceStageEnds(f, s, t, panicked, done)
    requires exists panicked, done :: AdviceStageEnds(f, t, u, panicked, done)
    ensures u == t
  {
    var p, first :| AdviceStageEnds(f, s, t, p, first);
    var q, second :| AdviceStageEnds(f, t, u, q, second);
    SecondAdviceChangesNothing(f, s, t, u, Touched(f));
  }

  lemma NothingCounted(t: EngineState, summary: Summary)
    requires Counts(summary, t, t)
    ensures summary == Summary(0, 0, 0, 0)
  {
  }

  /** Two passes over the same facts from the same tables end in the same tables,
      whatever the orders in which the maps were ranged. */
  lemma PassIsDetermined(s: EngineState, t: EngineState, u: EngineState, f: Facts)
    requires PassStep(s, t, f) && PassStep(s, u, f) && Touched(f) <= f.accounts.Keys
    ensures t == u
  {
    Rec.OutcomeIsDetermined(s.signals, t.signals, u.signals, SignalItems(f));
    Rec.OutcomeIsDetermined(s.risks, t.risks, u.risks, RiskItems(f));
    var p, first :| AdviceStageEnds(f, s.advice, t.advice, p, first);
    var q, second :| AdviceStageEnds(f, s.advice, u.advice, q, second);
    AdviceOutcomeIsDetermined(f, s.advice, t.advice, u.advice, Touched(f));
  }

  /** Human decisions survive every run of passes and actions. */
  lemma {:induction false} DecisionsSurvive(states: seq<EngineState>)
    requires |states| > 0 && IsRun(states)
    ensures DecisionsStand(states[0], states[|states| - 1])
  {
    var n := |states| - 1;
    if n > 0 {
      DecisionsSurvive(states[..n]);
      StepKeepsDecisions(states[n - 1], states[n]);
    }
  }

  /** Tasks are created by accepting advice, one each, and belong to it for good. */
  ghost predicate TasksMatch(s: EngineState) {
    && (forall k | k in s.advice :: s.advice[k].status == Accepted <==> s.advice[k].task.Some?)
    && (forall k | k in s.advice && s.advice[k].task.Some? ::
          && s.advice[k].task.value < |s.tasks|
          && s.tasks[s.advice[k].task.value].account == k.account
          && s.tasks[s.advice[k].task.value].assignee == s.advice[k].assignee
          && s.tasks[s.advice[k].task.value].due == s.advice[k].due)
    && (forall j, k | j in s.advice && k in s.advice && j != k && s.advice[j].task.Some? :: s.advice[j].task != s.advice[k].task)
    && (forall i | 0 <= i < |s.tasks| :: TaskHasOrigin(s, i))
  }

  ghost predicate TaskHasOrigin(s: EngineState, i: nat) {
    exists k :: k in s.advice && s.advice[k].task == Some(i)
  }

  /** Each accepted recommendation has one task, and no task has another origin. */
  lemma StepKeepsTasks(s: EngineState, t: EngineState)
    requires Next(s, t) && TasksMatch(s)
    ensures TasksMatch(t)
  {
    if f: Facts :| Consistent(f) && PassStep(s, t, f) {
      PassKeepsTasks(s, t, f);
    } else if k :| k in s.signals && t == SignalIgnored(s, k) {
      SameAdviceKeepsTasks(s, t);
    } else if k :| k in s.risks && t == RiskAccepted(s, k) {
      SameAdviceKeepsTasks(s, t);
    } else if k, assignee, due :| k in s.advice && s.advice[k].status == Open && t == AdviceAccepted(s, k, assignee, due) {
      AcceptKeepsTasks(s, k, assignee, due);
    } else {
      var k :| k in s.advice && s.advice[k].status == Open && t == AdviceDismissed(s, k);
      DismissKeepsTasks(s, k);
    }
  }

  lemma SameAdviceKeepsTasks(s: EngineState, t: EngineState)
    requires TasksMatch(s) && t.advice == s.advice && t.tasks == s.tasks
    ensures TasksMatch(t)
  {
    forall i | 0 <= i < |t.tasks|
      ensures TaskHasOrigin(t, i)
    {
      assert TaskHasOrigin(s, i);
    }
  }

  lemma AcceptKeepsTasks(s: EngineState, k: AdviceKey, assignee: Option<Id>, due: Option<int>)
    requires TasksMatch(s) && k in s.advice && s.advice[k].status == Open
    ensures TasksMatch(AdviceAccepted(s, k, assignee, due))
  {
    var t := AdviceAccepted(s, k, assignee, due);
    forall i | 0 <= i < |t.tasks|
      ensures TaskHasOrigin(t, i)
    {
      if i == |s.tasks| {
        assert t.advice[k].task == Some(i);
      } else {
        assert TaskHasOrigin(s, i);
        var j :| j in s.advice && s.advice[j].task == Some(i);
        assert j != k && t.advice[j] == s.advice[j];
      }
    }
  }

  lemma DismissKeepsTasks(s: EngineState, k: AdviceKey)
    requires TasksMatch(s) && k in s.advice && s.advice[k].status == Open
    ensures TasksMatch(AdviceDismissed(s, k))
  {
    var t := AdviceDismissed(s, k);
    forall i | 0 <= i < |t.tasks|
      ensures TaskHasOrigin(t, i)
    {
      assert TaskHasOrigin(s, i);
      var j :| j in s.advice && s.advice[j].task == Some(i);
      assert j != k && t.advice[j] == s.advice[j];
    }
  }

  lemma PassRow(f: Facts, s: AdviceRows, t: AdviceRows, done: set<Id>, k: AdviceKey)
    requires done <= f.accounts.Keys && AdviceReconciled(f, s, t, done)
    ensures k in t ==> (k in s && s[k].status != Open && AnswerStands(s[k], t[k]))
                       || (t[k].status == Open && (k in s ==> s[k].status == Open)
                           && t[k].task == if k in s then s[k].task else None)
  {
    assert KeyReconciled(f, s, t, done, k);
    if k in s && s[k].status != Open {
      DecidedAdviceSurvives(f, s, t, done, k);
    } else if k in t && k.account in done {
      var a :| a in AdviceIn(f, k.account) && a.kind == k.kind;
    }
  }

  lemma PassKeepsTasks(s: EngineState, t: EngineState, f: Facts)
    requires PassStep(s, t, f) && TasksMatch(s)
    ensures TasksMatch(t)
  {
    var panicked, done :| AdviceStageEnds(f, s.advice, t.advice, panicked, done);
    forall k { PassRow(f, s.advice, t.advice, done, k); }
    forall i | 0 <= i < |t.tasks|
      ensures TaskHasOrigin(t, i)
    {
      assert TaskHasOrigin(s, i);
      var k :| k in s.advice && s.advice[k].task == Some(i);
      DecidedAdviceSurvives(f, s.advice, t.advice, done, k);
    }
  }
}

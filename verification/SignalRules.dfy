/** The rules of the intelligence engine: which signals one pass emits for the
    facts it read. Times are whole seconds, calendar dates are day numbers. */
module SignalRules {
  import opened Wrappers

  type Id = string

  const DAY := 86_400
  const NO_CONTACT_DAYS := 30
  const STALLED_DAYS := 30
  const RENEWAL_DAYS := 90
  const NEVER_CONTACTED := 0x4000_0000

  datatype SignalType =
    | NoContact
    | DecisionMakerMissing
    | CriticalVoc
    | EngagementIncrease
    | QuoteRequested
    | DealStalled
    | CloseDatePassed
    | ContractExpiring

  datatype Severity = Low | Medium | High | Critical

  datatype EntityType = Account | Voc | Opportunity | Contract

  /** The texts and the evidence map are dropped, but for the two parts the engine
      reads back: the renewal status and the source of a quote. */
  datatype Signal = Signal(
    kind: SignalType, severity: Severity, entityType: EntityType, entity: Id, account: Id,
    source: Id, renewal: Option<string>)
  {
    function Key(): SignalKey {
      SignalKey(kind, entityType, entity)
    }
  }

  datatype SignalKey = SignalKey(kind: SignalType, entityType: EntityType, entity: Id)

  datatype AccountFacts = AccountFacts(
    owner: Id, lastContact: Option<int>, recentTouches: nat, priorTouches: nat, contacts: nat, decisionMakers: nat,
    criticalVoices: nat, criticalVoice: Id, recentQuote: Id)

  datatype DealFacts = DealFacts(account: Id, open: bool, stageEntered: int, closeDate: Option<int>)

  datatype ContractFacts = ContractFacts(id: Id, account: Id, endDate: int, renewal: string, autoRenew: bool)

  datatype Facts = Facts(
    accounts: map<Id, AccountFacts>, deals: map<Id, DealFacts>, contracts: seq<ContractFacts>, now: int, today: int)

  /** int(d.Hours() / 24): toward zero, also for an instant in the future. */
  function WholeDays(seconds: int): int {
    if seconds >= 0 then seconds / DAY else -((-seconds) / DAY)
  }

  function DaysSince(at: Option<int>, now: int): int {
    if at.None? then NEVER_CONTACTED else WholeDays(now - at.value)
  }

  function When(condition: bool, signal: Signal): seq<Signal> {
    if condition then [signal] else []
  }

  function NoContactSignal(id: Id, a: AccountFacts, now: int): seq<Signal> {
    var days := DaysSince(a.lastContact, now);
    When(a.lastContact.None? || days >= NO_CONTACT_DAYS,
         Signal(NoContact, if days >= NO_CONTACT_DAYS * 2 || a.lastContact.None? then High else Medium,
                Account, id, id, id, None))
  }

  function DecisionMakerSignal(id: Id, a: AccountFacts): seq<Signal> {
    When(a.contacts > 0 && a.decisionMakers == 0, Signal(DecisionMakerMissing, Medium, Account, id, id, id, None))
    + When(a.contacts == 0, Signal(DecisionMakerMissing, High, Account, id, id, id, None))
  }

  function VoiceSignal(id: Id, a: AccountFacts): seq<Signal> {
    When(a.criticalVoices > 0, Signal(CriticalVoc, Critical, Voc, a.criticalVoice, id, a.criticalVoice, None))
  }

  function PositiveSignals(id: Id, a: AccountFacts): seq<Signal> {
    When(a.recentTouches >= 3 && a.recentTouches > a.priorTouches,
         Signal(EngagementIncrease, Low, Account, id, id, id, None))
    + When(a.recentQuote != "", Signal(QuoteRequested, Low, Account, id, id, a.recentQuote, None))
  }

  function AccountSignals(id: Id, a: AccountFacts, now: int): seq<Signal> {
    NoContactSignal(id, a, now) + DecisionMakerSignal(id, a) + VoiceSignal(id, a) + PositiveSignals(id, a)
  }

  function DealSignals(id: Id, d: DealFacts, now: int, today: int): seq<Signal> {
    if !d.open then [] else
      var stalled := WholeDays(now - d.stageEntered);
      When(stalled >= STALLED_DAYS,
           Signal(DealStalled, if stalled >= STALLED_DAYS * 2 then High else Medium, Opportunity, id, d.account, id, None))
      + When(d.closeDate.Some? && today - d.closeDate.value > 0,
             Signal(CloseDatePassed, High, Opportunity, id, d.account, id, None))
  }

  function ContractSignals(c: ContractFacts, today: int): seq<Signal> {
    var remaining := c.endDate - today;
    if remaining > RENEWAL_DAYS || remaining < 0 then [] else
      var severity := if remaining <= 14 && c.renewal == "NOT_STARTED" && !c.autoRenew then Critical
                      else if remaining <= 30 then High else Medium;
      [Signal(ContractExpiring, severity, Contract, c.id, c.account, c.id, Some(c.renewal))]
  }

  // ---- one pass ---------------------------------------------------------------

  /** The signals of a list that go to one account: what emitting them adds there. */
  function For(signals: seq<Signal>, account: Id): seq<Signal> {
    if signals == [] then []
    else
      var n := |signals| - 1;
      For(signals[..n], account) + if signals[n].account == account then [signals[n]] else []
  }

  lemma {:induction false} AllForOne(signals: seq<Signal>, owner: Id, account: Id)
    requires forall s | s in signals :: s.account == owner
    ensures For(signals, account) == if account == owner then signals else []
  {
    if signals != [] {
      var n := |signals| - 1;
      assert signals == signals[..n] + [signals[n]];
      assert signals[n] in signals;
      AllForOne(signals[..n], owner, account);
    }
  }

  /** The deal signals of an account when the map of deals is ranged in this order. */
  function DealSignalsIn(f: Facts, order: seq<Id>, account: Id): seq<Signal> {
    if order == [] then []
    else
      var n := |order| - 1;
      DealSignalsIn(f, order[..n], account)
      + if order[n] in f.deals && f.deals[order[n]].account == account
        then DealSignals(order[n], f.deals[order[n]], f.now, f.today) else []
  }

  function ContractSignalsIn(f: Facts, contracts: seq<ContractFacts>, account: Id): seq<Signal> {
    if contracts == [] then []
    else
      var n := |contracts| - 1;
      ContractSignalsIn(f, contracts[..n], account)
      + if contracts[n].account == account then ContractSignals(contracts[n], f.today) else []
  }

  function AccountSignalsIn(f: Facts, account: Id): seq<Signal> {
    if account in f.accounts then AccountSignals(account, f.accounts[account], f.now) else []
  }

  /** What ends up in byAccount[account]. */
  function SignalsOf(f: Facts, order: seq<Id>, account: Id): seq<Signal> {
    AccountSignalsIn(f, account) + DealSignalsIn(f, order, account) + ContractSignalsIn(f, f.contracts, account)
  }

  ghost predicate Enumerates(order: seq<Id>, ids: set<Id>) {
    && (forall i, j | 0 <= i < j < |order| :: order[i] != order[j])
    && (forall id :: id in order <==> id in ids)
  }

  /** The signals that hold for these facts, whatever order they are found in. */
  ghost predicate Holds(f: Facts, s: Signal) {
    || (exists a :: a in f.accounts && s in AccountSignals(a, f.accounts[a], f.now))
    || (exists d :: d in f.deals && s in DealSignals(d, f.deals[d], f.now, f.today))
    || (exists c :: c in f.contracts && s in ContractSignals(c, f.today))
  }

  /** Two accounts do not share an unresolved request, and a contract is read once. */
  ghost predicate Consistent(f: Facts) {
    && (forall a, b | a in f.accounts && b in f.accounts && a != b
                      && f.accounts[a].criticalVoices > 0 && f.accounts[b].criticalVoices > 0 ::
          f.accounts[a].criticalVoice != f.accounts[b].criticalVoice)
    && (forall i, j | 0 <= i < j < |f.contracts| :: f.contracts[i].id != f.contracts[j].id)
  }

  lemma {:induction false} DealSignalsMember(f: Facts, order: seq<Id>, account: Id, s: Signal)
    ensures s in DealSignalsIn(f, order, account)
       <==> s.account == account
            && exists d :: d in order && d in f.deals && s in DealSignals(d, f.deals[d], f.now, f.today)
  {
    if order != [] {
      var n := |order| - 1;
      DealSignalsMember(f, order[..n], account, s);
      var last := if order[n] in f.deals && f.deals[order[n]].account == account
                  then DealSignals(order[n], f.deals[order[n]], f.now, f.today) else [];
      InAppend(DealSignalsIn(f, order[..n], account), last, s);
      if order[n] in f.deals && s in DealSignals(order[n], f.deals[order[n]], f.now, f.today) {
        KindsOfDeal(order[n], f.deals[order[n]], f.now, f.today, s);
      }
      assert forall d :: d in order <==> d in order[..n] || d == order[n];
    }
  }

  lemma {:induction false} ContractSignalsMember(f: Facts, contracts: seq<ContractFacts>, account: Id, s: Signal)
    ensures s in ContractSignalsIn(f, contracts, account)
       <==> s.account == account && exists c :: c in contracts && s in ContractSignals(c, f.today)
  {
    if contracts != [] {
      var n := |contracts| - 1;
      ContractSignalsMember(f, contracts[..n], account, s);
      assert forall c :: c in contracts <==> c in contracts[..n] || c == contracts[n];
    }
  }

  /** The lists a pass builds hold exactly the signals that hold, for every order
      in which the map of deals can be ranged. */
  lemma ListsAreComplete(f: Facts, order: seq<Id>, account: Id, s: Signal)
    requires Enumerates(order, f.deals.Keys)
    ensures s in SignalsOf(f, order, account) <==> Holds(f, s) && s.account == account
  {
    DealSignalsMember(f, order, account, s);
    ContractSignalsMember(f, f.contracts, account, s);
    if a :| a in f.accounts && s in AccountSignals(a, f.accounts[a], f.now) {
      KindsOfAccount(a, f.accounts[a], f.now, s);
    }
    if s in AccountSignalsIn(f, account) {
      KindsOfAccount(account, f.accounts[account], f.now, s);
    }
    InAppend(AccountSignalsIn(f, account) + DealSignalsIn(f, order, account), ContractSignalsIn(f, f.contracts, account), s);
    InAppend(AccountSignalsIn(f, account), DealSignalsIn(f, order, account), s);
    assert forall d | d in f.deals && s in DealSignals(d, f.deals[d], f.now, f.today) :: d in order;
  }

  lemma InAppend<T>(p: seq<T>, q: seq<T>, x: T)
    ensures x in p + q <==> x in p || x in q
  {
  }

  /** An account emits one signal of a kind at most, on itself or on its request. */
  lemma KindsOfAccount(a: Id, facts: AccountFacts, now: int, s: Signal)
    requires s in AccountSignals(a, facts, now)
    ensures s.account == a && s.kind != DealStalled && s.kind != CloseDatePassed && s.kind != ContractExpiring
    ensures if s.kind == CriticalVoc then facts.criticalVoices > 0 && s.entity == facts.criticalVoice else s.entity == a
    ensures [s] == OfAccountKind(a, facts, now, s.kind)
  {
    var first, second, third := NoContactSignal(a, facts, now), DecisionMakerSignal(a, facts), VoiceSignal(a, facts);
    InAppend(first + second + third, PositiveSignals(a, facts), s);
    if s in PositiveSignals(a, facts) {
      KindsOfPositive(a, facts, s);
    } else {
      InAppend(first + second, third, s);
      InAppend(first, second, s);
    }
  }

  lemma KindsOfPositive(a: Id, facts: AccountFacts, s: Signal)
    requires s in PositiveSignals(a, facts)
    ensures s.account == a && s.entity == a && (s.kind == EngagementIncrease || s.kind == QuoteRequested)
    ensures forall now :: [s] == OfAccountKind(a, facts, now, s.kind)
  {
  }

  ghost function OfAccountKind(a: Id, facts: AccountFacts, now: int, kind: SignalType): seq<Signal> {
    match kind
    case NoContact => NoContactSignal(a, facts, now)
    case DecisionMakerMissing => DecisionMakerSignal(a, facts)
    case CriticalVoc => VoiceSignal(a, facts)
    case EngagementIncrease => When(facts.recentTouches >= 3 && facts.recentTouches > facts.priorTouches,
                                    Signal(EngagementIncrease, Low, Account, a, a, a, None))
    case QuoteRequested => When(facts.recentQuote != "", Signal(QuoteRequested, Low, Account, a, a, facts.recentQuote, None))
    case _ => []
  }

  lemma KindsOfDeal(d: Id, facts: DealFacts, now: int, today: int, s: Signal)
    requires s in DealSignals(d, facts, now, today)
    ensures (s.kind == DealStalled || s.kind == CloseDatePassed) && s.entity == d && s.account == facts.account
    ensures forall t | t in DealSignals(d, facts, now, today) && t.kind == s.kind :: t == s
  {
  }

  /** Who emitted a signal that holds can be read off its kind. */
  lemma Emitter(f: Facts, s: Signal)
    requires Holds(f, s)
    ensures (s.kind == DealStalled || s.kind == CloseDatePassed) ==>
              s.entity in f.deals && s in DealSignals(s.entity, f.deals[s.entity], f.now, f.today)
    ensures s.kind == ContractExpiring ==>
              exists c :: c in f.contracts && c.id == s.entity && s in ContractSignals(c, f.today)
    ensures s.kind != DealStalled && s.kind != CloseDatePassed && s.kind != ContractExpiring ==>
              s.account in f.accounts && s in AccountSignals(s.account, f.accounts[s.account], f.now)
  {
    if a :| a in f.accounts && s in AccountSignals(a, f.accounts[a], f.now) {
      KindsOfAccount(a, f.accounts[a], f.now, s);
    } else if d :| d in f.deals && s in DealSignals(d, f.deals[d], f.now, f.today) {
      KindsOfDeal(d, f.deals[d], f.now, f.today, s);
    }
  }

  /** Signal keys are pairwise distinct over a whole pass: a key names one signal. */
  lemma KeysAreDistinct(f: Facts, s: Signal, t: Signal)
    requires Consistent(f) && Holds(f, s) && Holds(f, t) && s.Key() == t.Key()
    ensures s == t
  {
    Emitter(f, s);
    Emitter(f, t);
    if s.kind == DealStalled || s.kind == CloseDatePassed {
      KindsOfDeal(s.entity, f.deals[s.entity], f.now, f.today, s);
    } else if s.kind == ContractExpiring {
      ContractsAreDistinct(f, s, t);
    } else {
      KindsOfAccount(s.account, f.accounts[s.account], f.now, s);
      KindsOfAccount(t.account, f.accounts[t.account], f.now, t);
      assert s.account == t.account;
      assert [s] == [t];
      assert [s][0] == [t][0];
    }
  }

  lemma ContractsAreDistinct(f: Facts, s: Signal, t: Signal)
    requires Consistent(f) && s.entity == t.entity
    requires exists c :: c in f.contracts && c.id == s.entity && s in ContractSignals(c, f.today)
    requires exists c :: c in f.contracts && c.id == t.entity && t in ContractSignals(c, f.today)
    ensures s == t
  {
  }

  // ---- the text of a key ------------------------------------------------------

  function KindName(kind: SignalType): string {
    match kind
    case NoContact => "NO_CONTACT"
    case DecisionMakerMissing => "DECISION_MAKER_MISSING"
    case CriticalVoc => "CRITICAL_VOC"
    case EngagementIncrease => "ENGAGEMENT_INCREASE"
    case QuoteRequested => "QUOTE_REQUESTED"
    case DealStalled => "DEAL_STALLED"
    case CloseDatePassed => "CLOSE_DATE_PASSED"
    case ContractExpiring => "CONTRACT_EXPIRING"
  }

  function EntityName(entityType: EntityType): string {
    match entityType
    case Account => "ACCOUNT"
    case Voc => "VOC"
    case Opportunity => "OPPORTUNITY"
    case Contract => "CONTRACT"
  }

  /** signalKey: the three parts joined with bars. */
  function KeyText(k: SignalKey): string {
    KindName(k.kind) + "|" + EntityName(k.entityType) + "|" + k.entity
  }

  predicate NoBar(s: string) {
    '|' !in s
  }

  lemma KindNamesAreDistinct(j: SignalType, k: SignalType)
    requires KindName(j) == KindName(k)
    ensures j == k
  {
  }

  lemma NamesHaveNoBar(k: SignalKey)
    ensures NoBar(KindName(k.kind)) && NoBar(EntityName(k.entityType))
  {
  }

  lemma FirstBarAt(a: string, s: string, i: nat)
    requires NoBar(a) && i < |a + "|" + s|
    ensures |a| < |a + "|" + s| && (a + "|" + s)[|a|] == '|'
    ensures i < |a| ==> (a + "|" + s)[i] != '|'
  {
  }

  /** Two texts split at their first bars agree part by part. */
  lemma FirstBarSplits(a: string, b: string, s: string, t: string)
    requires NoBar(a) && NoBar(b) && a + "|" + s == b + "|" + t
    ensures a == b && s == t
  {
    var x := a + "|" + s;
    FirstBarAt(a, s, |b|);
    FirstBarAt(b, t, |a|);
    assert a == x[..|a|] && b == x[..|b|];
    assert s == x[|a| + 1..] && t == x[|b| + 1..];
  }

  lemma JoinIsInjective(a: string, b: string, c: string, x: string, y: string, z: string)
    requires NoBar(a) && NoBar(b) && NoBar(x) && NoBar(y)
    requires a + "|" + b + "|" + c == x + "|" + y + "|" + z
    ensures a == x && b == y && c == z
  {
    assert a + "|" + b + "|" + c == a + "|" + (b + "|" + c);
    assert x + "|" + y + "|" + z == x + "|" + (y + "|" + z);
    FirstBarSplits(a, x, b + "|" + c, y + "|" + z);
    FirstBarSplits(b, y, c, z);
  }

  lemma EntityNamesAreDistinct(j: EntityType, k: EntityType)
    requires EntityName(j) == EntityName(k)
    ensures j == k
  {
  }

  /** The dedupe text identifies the key, for any entity id whatever. */
  lemma KeyTextIdentifies(j: SignalKey, k: SignalKey)
    requires KeyText(j) == KeyText(k)
    ensures j == k
  {
    NamesHaveNoBar(j);
    NamesHaveNoBar(k);
    JoinIsInjective(KindName(j.kind), EntityName(j.entityType), j.entity, KindName(k.kind), EntityName(k.entityType), k.entity);
    KindNamesAreDistinct(j.kind, k.kind);
    EntityNamesAreDistinct(j.entityType, k.entityType);
  }
}

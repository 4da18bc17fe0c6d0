/** The advice that is open after a pass, said in terms of the facts alone. */
module AdviceFacts {
  import opened Wrappers
  import opened SignalRules
  import opened SignalFacts
  import opened RiskScoring
  import opened Recommendations
  import PassOrder
  import opened EngineSpec
  import opened RiskFacts

  ghost predicate DealCalls(f: Facts, a: Id) {
    exists d :: d in f.deals && f.deals[d].account == a && DealScore(f.deals[d], f.now, f.today) >= 70
  }

  ghost predicate RenewalCalls(f: Facts, a: Id) {
    exists c :: c in f.contracts && c.account == a && RenewalScore(c, f.today) >= 70
  }

  /** What calls for advice of this kind: a score of 70 or more, or a quote while no deal
      has one. */
  ghost predicate Calls(f: Facts, a: Id, kind: AdviceType)
    requires a in f.accounts
  {
    match kind
    case ScheduleMeeting => ScoreByFacts(f, a, RelationshipRisk) >= 70
    case ResolveVoc => ScoreByFacts(f, a, VocRisk) >= 70
    case CreateRenewal => RenewalCalls(f, a)
    case AdvanceDeal => DealCalls(f, a)
    case FollowUpQuote => f.accounts[a].recentQuote != "" && !DealCalls(f, a)
  }

  /** The same for the risk behind the advice. */
  ghost predicate Alarms(f: Facts, a: Id, kind: RiskType) {
    match kind
    case RelationshipRisk => ScoreByFacts(f, a, RelationshipRisk) >= 70
    case VocRisk => ScoreByFacts(f, a, VocRisk) >= 70
    case RenewalRisk => RenewalCalls(f, a)
    case DealRisk => DealCalls(f, a)
  }

  ghost predicate HighRisk(risks: seq<Risk>, kind: RiskType) {
    exists r :: r in risks && r.kind == kind && r.score >= 70
  }

  lemma HighRiskAlarms(f: Facts, a: Id, r: Risk)
    requires r in RisksFor(f, a) && r.score >= 70
    ensures Alarms(f, a, r.kind)
  {
    RiskIsByFacts(f, a, r);
  }

  lemma KeyedRisk(f: Facts, a: Id, k: RiskKey) returns (r: Risk)
    requires HasRisk(RisksFor(f, a), k)
    ensures r in RisksFor(f, a) && r.kind == k.kind && r.entity == k.entity && r.account == a && ByFacts(f, r)
  {
    r :| r in RisksFor(f, a) && r.Key() == k;
    RiskIsByFacts(f, a, r);
  }

  lemma AccountAlarm(f: Facts, a: Id, kind: RiskType)
    requires (kind == RelationshipRisk || kind == VocRisk) && ScoreByFacts(f, a, kind) >= 70
    ensures HighRisk(RisksFor(f, a), kind)
  {
    AccountGivesRisks(f, a, ListOf(f, a));
    var r := KeyedRisk(f, a, RiskKey(kind, Account, a));
  }

  lemma ContractIdIsUnique(f: Facts, c: ContractFacts, e: ContractFacts)
    requires Consistent(f) && c in f.contracts && e in f.contracts && c.id == e.id
    ensures c == e
  {
    var i :| 0 <= i < |f.contracts| && f.contracts[i] == c;
    var j :| 0 <= j < |f.contracts| && f.contracts[j] == e;
  }

  lemma RenewalAlarm(f: Facts, a: Id, c: ContractFacts)
    requires Consistent(f) && c in f.contracts && c.account == a && RenewalScore(c, f.today) >= 70
    ensures HighRisk(RisksFor(f, a), RenewalRisk)
  {
    ContractGivesRisk(f, a, c);
    var r := KeyedRisk(f, a, RiskKey(RenewalRisk, Contract, c.id));
    var e :| e in f.contracts && e.id == r.entity && e.account == r.account && r.score == RenewalScore(e, f.today);
    ContractIdIsUnique(f, c, e);
  }

  lemma DealAlarm(f: Facts, a: Id, d: Id)
    requires d in f.deals && f.deals[d].account == a && DealScore(f.deals[d], f.now, f.today) >= 70
    ensures HighRisk(RisksFor(f, a), DealRisk)
  {
    DealGivesRisk(f, a, ListOf(f, a), d);
    var r := KeyedRisk(f, a, RiskKey(DealRisk, Opportunity, d));
  }

  lemma AlarmHasRisk(f: Facts, a: Id, kind: RiskType)
    requires Consistent(f) && Alarms(f, a, kind)
    ensures HighRisk(RisksFor(f, a), kind)
  {
    match kind
    case RelationshipRisk => AccountAlarm(f, a, kind);
    case VocRisk => AccountAlarm(f, a, kind);
    case RenewalRisk =>
      var c :| c in f.contracts && c.account == a && RenewalScore(c, f.today) >= 70;
      RenewalAlarm(f, a, c);
    case DealRisk =>
      var d :| d in f.deals && f.deals[d].account == a && DealScore(f.deals[d], f.now, f.today) >= 70;
      DealAlarm(f, a, d);
  }

  lemma HighRiskIff(f: Facts, a: Id, kind: RiskType)
    requires Consistent(f)
    ensures HighRisk(RisksFor(f, a), kind) <==> Alarms(f, a, kind)
  {
    if r :| r in RisksFor(f, a) && r.kind == kind && r.score >= 70 {
      HighRiskAlarms(f, a, r);
    }
    if Alarms(f, a, kind) {
      AlarmHasRisk(f, a, kind);
    }
  }

  lemma QuoteListed(f: Facts, a: Id, s: Signal)
    requires a in f.accounts && s.kind == QuoteRequested && s.account == a
    ensures s in ListOf(f, a) <==> OnAccount(a, f.accounts[a], f.now, s)
  {
    ListMember(f, a, s);
    HoldsIff(f, s);
  }

  lemma {:induction false} SomeOfKind(list: seq<Signal>, kind: SignalType, s: Signal)
    requires s in list && s.kind == kind
    ensures OfKind(list, kind) != []
  {
    KindPresent(list, kind);
  }

  lemma QuoteIff(f: Facts, a: Id)
    requires a in f.accounts
    ensures OfKind(ListOf(f, a), QuoteRequested) != [] <==> f.accounts[a].recentQuote != ""
  {
    var list := ListOf(f, a);
    if f.accounts[a].recentQuote != "" {
      var quote := Signal(QuoteRequested, Low, Account, a, a, f.accounts[a].recentQuote, None);
      QuoteListed(f, a, quote);
      SomeOfKind(list, QuoteRequested, quote);
    } else {
      forall s | s in list
        ensures s.kind != QuoteRequested
      {
        ListMember(f, a, s);
        if s.kind == QuoteRequested {
          QuoteListed(f, a, s);
        }
      }
      PassOrder.NoneOfKind(list, QuoteRequested);
    }
  }

  function Behind(kind: AdviceType): (risk: RiskType)
    requires kind != FollowUpQuote
  {
    match kind
    case ScheduleMeeting => RelationshipRisk
    case ResolveVoc => VocRisk
    case CreateRenewal => RenewalRisk
    case AdvanceDeal => DealRisk
  }

  lemma AlarmingIff(risks: seq<Risk>, kind: AdviceType)
    ensures Alarming(risks, kind) <==> kind != FollowUpQuote && HighRisk(risks, Behind(kind))
  {
  }

  lemma AdviceFromRisks(owner: Id, quoted: bool, risks: seq<Risk>, now: int, kind: AdviceType)
    ensures kind in KindsOf(AdviceOf(owner, quoted, risks, now))
       <==> if kind == FollowUpQuote then quoted && !HighRisk(risks, DealRisk) else HighRisk(risks, Behind(kind))
  {
    AdviceIff(owner, quoted, risks, now, kind);
    AlarmingIff(risks, kind);
    AlarmingIff(risks, AdvanceDeal);
  }

  lemma CallsIff(f: Facts, a: Id, kind: AdviceType)
    requires a in f.accounts
    ensures Calls(f, a, kind)
       <==> if kind == FollowUpQuote then f.accounts[a].recentQuote != "" && !Alarms(f, a, DealRisk)
            else Alarms(f, a, Behind(kind))
  {
  }

  /** Advice of a kind is produced for an account exactly when the facts call for it. */
  lemma AdviceByFacts(f: Facts, a: Id, kind: AdviceType)
    requires Consistent(f) && a in f.accounts
    ensures kind in KindsOf(AdviceIn(f, a)) <==> Calls(f, a, kind)
  {
    CallsIff(f, a, kind);
    QuoteIff(f, a);
    HighRiskIff(f, a, if kind == FollowUpQuote then DealRisk else Behind(kind));
    AdviceFromRisks(f.accounts[a].owner, OfKind(ListOf(f, a), QuoteRequested) != [], RisksFor(f, a), f.now, kind);
  }

  /** After a pass the advice open for an account it has advised is what the facts call
      for, minus what somebody has decided about. */
  lemma OpenAdviceByFacts(f: Facts, before: AdviceRows, after: AdviceRows, accounts: set<Id>, k: AdviceKey)
    requires Consistent(f) && accounts <= f.accounts.Keys && k.account in accounts
    requires AdviceReconciled(f, before, after, accounts)
    ensures (k in after && after[k].status == Open)
       <==> Calls(f, k.account, k.kind) && !(k in before && before[k].status != Open)
  {
    OpenAdviceIsExact(f, before, after, accounts, k);
    AdviceByFacts(f, k.account, k.kind);
  }
}

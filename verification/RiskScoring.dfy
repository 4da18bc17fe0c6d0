/** Scoring: how the signals of one account become risks, each the sum of named
    factors, and how risks and signals become recommendations. */
module RiskScoring {
  import opened Wrappers
  import opened Ordering
  import opened SignalRules

  datatype RiskType = RelationshipRisk | VocRisk | RenewalRisk | DealRisk

  datatype FactorName = FromSignal(kind: SignalType) | RenewalNotStarted

  datatype Factor = Factor(name: FactorName, points: int)

  datatype RiskKey = RiskKey(kind: RiskType, entityType: EntityType, entity: Id)

  datatype Risk = Risk(
    kind: RiskType, entityType: EntityType, entity: Id, account: Id,
    score: int, severity: Severity, factors: seq<Factor>)
  {
    function Key(): RiskKey {
      RiskKey(kind, entityType, entity)
    }
  }

  function SeverityForScore(score: int): Severity {
    if score >= 90 then Critical else if score >= 70 then High else if score >= 40 then Medium else Low
  }

  /** The signals of one type, in order: what byType holds. */
  function OfKind(signals: seq<Signal>, kind: SignalType): seq<Signal> {
    if signals == [] then []
    else
      var n := |signals| - 1;
      OfKind(signals[..n], kind) + if signals[n].kind == kind then [signals[n]] else []
  }

  function OnEntity(signals: seq<Signal>, entity: Id): seq<Signal> {
    if signals == [] then []
    else
      var n := |signals| - 1;
      OnEntity(signals[..n], entity) + if signals[n].entity == entity then [signals[n]] else []
  }

  function PointsOf(s: Signal): int {
    match s.kind
    case NoContact => if s.severity == High then 50 else 35
    case DecisionMakerMissing => if s.severity == High then 35 else 25
    case EngagementIncrease => -20
    case CriticalVoc => 75
    case ContractExpiring => if s.severity == High then 60 else if s.severity == Critical then 85 else 40
    case DealStalled => if s.severity == High then 60 else 45
    case CloseDatePassed => if s.severity == High then 55 else 40
    case QuoteRequested => 0
  }

  function FactorOf(s: Signal): Factor {
    Factor(FromSignal(s.kind), PointsOf(s))
  }

  function Factors(signals: seq<Signal>): seq<Factor> {
    seq(|signals|, i requires 0 <= i < |signals| => FactorOf(signals[i]))
  }

  function Points(factors: seq<Factor>): int {
    if factors == [] then 0 else Points(factors[..|factors| - 1]) + factors[|factors| - 1].points
  }

  /** add: nothing for a score of zero or less, at most 100 otherwise. */
  function Scored(kind: RiskType, entityType: EntityType, entity: Id, account: Id, factors: seq<Factor>): seq<Risk> {
    var points := Points(factors);
    if points <= 0 then [] else
      var score := if points > 100 then 100 else points;
      [Risk(kind, entityType, entity, account, score, SeverityForScore(score), factors)]
  }

  function RelationshipFactors(signals: seq<Signal>): seq<Factor> {
    var base := Factors(OfKind(signals, NoContact)) + Factors(OfKind(signals, DecisionMakerMissing));
    var engaged := OfKind(signals, EngagementIncrease);
    if |engaged| > 0 && |base| > 0 then base + [FactorOf(engaged[0])] else base
  }

  function RenewalFactors(s: Signal): seq<Factor> {
    [FactorOf(s)] + if s.renewal == Some("NOT_STARTED") then [Factor(RenewalNotStarted, 15)] else []
  }

  function RenewalRisks(account: Id, expiring: seq<Signal>): seq<Risk> {
    if expiring == [] then []
    else
      var n := |expiring| - 1;
      RenewalRisks(account, expiring[..n]) + Scored(RenewalRisk, Contract, expiring[n].entity, account, RenewalFactors(expiring[n]))
  }

  /** The deal signals in the order they are scored: stalled before overdue. */
  function SignalsOnDeals(signals: seq<Signal>): seq<Signal> {
    OfKind(signals, DealStalled) + OfKind(signals, CloseDatePassed)
  }

  function DealFactors(signals: seq<Signal>, deal: Id): seq<Factor> {
    Factors(OnEntity(SignalsOnDeals(signals), deal))
  }

  function EntitiesOf(signals: seq<Signal>): set<Id> {
    if signals == [] then {} else EntitiesOf(signals[..|signals| - 1]) + {signals[|signals| - 1].entity}
  }

  ghost function DealRisks(account: Id, signals: seq<Signal>, deals: seq<Id>): seq<Risk> {
    if deals == [] then []
    else
      var n := |deals| - 1;
      DealRisks(account, signals, deals[..n]) + Scored(DealRisk, Opportunity, deals[n], account, DealFactors(signals, deals[n]))
  }

  ghost function RisksOf(account: Id, signals: seq<Signal>): seq<Risk> {
    Scored(RelationshipRisk, Account, account, account, RelationshipFactors(signals))
    + Scored(VocRisk, Account, account, account, Factors(OfKind(signals, CriticalVoc)))
    + RenewalRisks(account, OfKind(signals, ContractExpiring))
    + DealRisks(account, signals, Sorted(EntitiesOf(SignalsOnDeals(signals))))
  }

  // ---- the loops --------------------------------------------------------------

  function Lookup(byType: map<SignalType, seq<Signal>>, kind: SignalType): seq<Signal> {
    if kind in byType then byType[kind] else []
  }

  method GroupByType(signals: seq<Signal>) returns (byType: map<SignalType, seq<Signal>>)
    ensures forall kind :: Lookup(byType, kind) == OfKind(signals, kind)
  {
    byType := map[];
    for i := 0 to |signals|
      invariant forall kind :: Lookup(byType, kind) == OfKind(signals[..i], kind)
    {
      assert signals[..i + 1][..i] == signals[..i];
      var s := signals[i];
      byType := byType[s.kind := Lookup(byType, s.kind) + [s]];
    }
    assert signals[..|signals|] == signals;
  }

  method FactorsOf(signals: seq<Signal>) returns (factors: seq<Factor>)
    ensures factors == Factors(signals)
  {
    factors := [];
    for i := 0 to |signals|
      invariant factors == Factors(signals[..i])
    {
      factors := factors + [FactorOf(signals[i])];
    }
    assert signals[..|signals|] == signals;
  }

  type DealTable = map<Id, seq<Factor>>

  function FactorsOn(table: DealTable, deal: Id): seq<Factor> {
    if deal in table then table[deal] else []
  }

  ghost predicate FactorsCollected(table: DealTable, signals: seq<Signal>) {
    && table.Keys == EntitiesOf(signals)
    && forall deal :: FactorsOn(table, deal) == Factors(OnEntity(signals, deal))
  }

  lemma NextFactorsCollected(table: DealTable, signals: seq<Signal>, i: nat)
    requires i < |signals| && FactorsCollected(table, signals[..i])
    ensures var s := signals[i];
            FactorsCollected(table[s.entity := FactorsOn(table, s.entity) + [FactorOf(s)]], signals[..i + 1])
  {
    var s := signals[i];
    var next := table[s.entity := FactorsOn(table, s.entity) + [FactorOf(s)]];
    assert signals[..i + 1][..i] == signals[..i];
    forall deal
      ensures FactorsOn(next, deal) == Factors(OnEntity(signals[..i + 1], deal))
    {
      assert OnEntity(signals[..i + 1], deal) == OnEntity(signals[..i], deal) + if s.entity == deal then [s] else [];
      assert FactorsOn(table, deal) == Factors(OnEntity(signals[..i], deal));
    }
  }

  /** dealFactors: one list of factors per deal. */
  method CollectDealFactors(signals: seq<Signal>) returns (table: DealTable)
    ensures FactorsCollected(table, signals)
  {
    table := map[];
    for i := 0 to |signals|
      invariant FactorsCollected(table, signals[..i])
    {
      NextFactorsCollected(table, signals, i);
      table := table[signals[i].entity := FactorsOn(table, signals[i].entity) + [FactorOf(signals[i])]];
    }
    assert signals[..|signals|] == signals;
  }

  method ScoreAccount(account: Id, noContact: seq<Factor>, missing: seq<Factor>, engaged: seq<Signal>, voc: seq<Factor>)
    returns (risks: seq<Risk>)
    ensures var base := noContact + missing;
            var relationship := if |engaged| > 0 && |base| > 0 then base + [FactorOf(engaged[0])] else base;
            risks == Scored(RelationshipRisk, Account, account, account, relationship)
                     + Scored(VocRisk, Account, account, account, voc)
  {
    var relationship := noContact + missing;
    if |engaged| > 0 && |relationship| > 0 {
      relationship := relationship + [FactorOf(engaged[0])];
    }
    risks := Scored(RelationshipRisk, Account, account, account, relationship);
    if |voc| > 0 {
      risks := risks + Scored(VocRisk, Account, account, account, voc);
    }
  }

  method ScoreRenewals(account: Id, expiring: seq<Signal>) returns (risks: seq<Risk>)
    ensures risks == RenewalRisks(account, expiring)
  {
    risks := [];
    for i := 0 to |expiring|
      invariant risks == RenewalRisks(account, expiring[..i])
    {
      assert expiring[..i + 1][..i] == expiring[..i];
      risks := risks + Scored(RenewalRisk, Contract, expiring[i].entity, account, RenewalFactors(expiring[i]));
    }
    assert expiring[..|expiring|] == expiring;
  }

  lemma {:induction false} DealRisksGrow(account: Id, signals: seq<Signal>, deals: seq<Id>, i: nat)
    requires i < |deals|
    ensures DealRisks(account, signals, deals[..i + 1])
         == DealRisks(account, signals, deals[..i])
            + Scored(DealRisk, Opportunity, deals[i], account, DealFactors(signals, deals[i]))
  {
    assert deals[..i + 1][..i] == deals[..i];
  }

  method ScoreDeals(account: Id, ghost signals: seq<Signal>, dealSignals: seq<Signal>) returns (risks: seq<Risk>)
    requires dealSignals == SignalsOnDeals(signals)
    ensures risks == DealRisks(account, signals, Sorted(EntitiesOf(SignalsOnDeals(signals))))
  {
    var table := CollectDealFactors(dealSignals);
    var deals := Sort(table.Keys);
    risks := [];
    for i := 0 to |deals|
      invariant risks == DealRisks(account, signals, deals[..i])
    {
      DealRisksGrow(account, signals, deals, i);
      assert deals[i] in deals;
      assert FactorsOn(table, deals[i]) == DealFactors(signals, deals[i]);
      risks := risks + Scored(DealRisk, Opportunity, deals[i], account, table[deals[i]]);
    }
    assert deals[..|deals|] == deals;
  }

  method ScoreRisks(account: Id, signals: seq<Signal>) returns (risks: seq<Risk>)
    ensures risks == RisksOf(account, signals)
  {
    var byType := GroupByType(signals);
    var noContact := FactorsOf(Lookup(byType, NoContact));
    var missing := FactorsOf(Lookup(byType, DecisionMakerMissing));
    var voc := FactorsOf(Lookup(byType, CriticalVoc));
    risks := ScoreAccount(account, noContact, missing, Lookup(byType, EngagementIncrease), voc);
    var renewals := ScoreRenewals(account, Lookup(byType, ContractExpiring));
    var deals := ScoreDeals(account, signals, Lookup(byType, DealStalled) + Lookup(byType, CloseDatePassed));
    risks := risks + renewals + deals;
  }

  // ---- what a score says ------------------------------------------------------

  lemma {:induction false} OfKindMember(signals: seq<Signal>, kind: SignalType, s: Signal)
    ensures s in OfKind(signals, kind) <==> s in signals && s.kind == kind
  {
    if signals != [] {
      var n := |signals| - 1;
      OfKindMember(signals[..n], kind, s);
      assert signals == signals[..n] + [signals[n]];
    }
  }

  lemma {:induction false} OnEntityMember(signals: seq<Signal>, entity: Id, s: Signal)
    ensures s in OnEntity(signals, entity) <==> s in signals && s.entity == entity
  {
    if signals != [] {
      var n := |signals| - 1;
      OnEntityMember(signals[..n], entity, s);
      assert signals == signals[..n] + [signals[n]];
    }
  }

  lemma {:induction false} EntitiesMember(signals: seq<Signal>, entity: Id)
    ensures entity in EntitiesOf(signals) <==> exists s :: s in signals && s.entity == entity
  {
    if signals != [] {
      var n := |signals| - 1;
      EntitiesMember(signals[..n], entity);
      assert signals == signals[..n] + [signals[n]];
    }
  }

  lemma {:induction false} PointsAppend(f: seq<Factor>, g: seq<Factor>)
    ensures Points(f + g) == Points(f) + Points(g)
  {
    if g == [] {
      assert f + g == f;
    } else {
      PointsAppend(f, g[..|g| - 1]);
      assert (f + g)[..|f + g| - 1] == f + g[..|g| - 1];
    }
  }

  /** Every kind of negative signal brings at least 25 points. */
  lemma {:induction false} PointsAreSubstantial(signals: seq<Signal>)
    requires forall i | 0 <= i < |signals| :: signals[i].kind != EngagementIncrease && signals[i].kind != QuoteRequested
    ensures Points(Factors(signals)) >= 25 * |signals|
  {
    if signals != [] {
      var n := |signals| - 1;
      PointsAreSubstantial(signals[..n]);
      assert Factors(signals)[..n] == Factors(signals[..n]);
    }
  }

  lemma {:induction false} OfKindPoints(signals: seq<Signal>, kind: SignalType)
    requires kind != EngagementIncrease && kind != QuoteRequested
    ensures Points(Factors(OfKind(signals, kind))) >= 25 * |OfKind(signals, kind)|
  {
    var some := OfKind(signals, kind);
    forall i | 0 <= i < |some|
      ensures some[i].kind == kind
    {
      OfKindMember(signals, kind, some[i]);
    }
    PointsAreSubstantial(some);
  }

  /** Rising engagement lowers a relationship risk but never removes it. */
  lemma {:induction false} RelationshipPoints(signals: seq<Signal>)
    ensures var some := OfKind(signals, NoContact) + OfKind(signals, DecisionMakerMissing);
            Points(RelationshipFactors(signals)) > 0 <==> some != []
  {
    OfKindPoints(signals, NoContact);
    OfKindPoints(signals, DecisionMakerMissing);
    var base := Factors(OfKind(signals, NoContact)) + Factors(OfKind(signals, DecisionMakerMissing));
    PointsAppend(Factors(OfKind(signals, NoContact)), Factors(OfKind(signals, DecisionMakerMissing)));
    var engaged := OfKind(signals, EngagementIncrease);
    if |engaged| > 0 && |base| > 0 {
      OfKindMember(signals, EngagementIncrease, engaged[0]);
      PointsAppend(base, [FactorOf(engaged[0])]);
      assert Points([FactorOf(engaged[0])]) == -20;
    }
  }

  lemma RenewalPoints(s: Signal)
    requires s.kind == ContractExpiring
    ensures Points(RenewalFactors(s)) >= 40
  {
    assert Points([FactorOf(s)]) == PointsOf(s);
    PointsAppend([FactorOf(s)], [Factor(RenewalNotStarted, 15)]);
    assert Points([Factor(RenewalNotStarted, 15)]) == 15;
    assert [FactorOf(s)] + [] == [FactorOf(s)];
  }

  lemma DealPoints(signals: seq<Signal>, deal: Id)
    ensures Points(DealFactors(signals, deal)) > 0 <==> exists s :: s in SignalsOnDeals(signals) && s.entity == deal
  {
    var all := SignalsOnDeals(signals);
    var some := OnEntity(all, deal);
    forall i | 0 <= i < |some|
      ensures some[i] in all && some[i].entity == deal && some[i].kind != EngagementIncrease && some[i].kind != QuoteRequested
    {
      OnEntityMember(all, deal, some[i]);
      OfKindMember(signals, DealStalled, some[i]);
      OfKindMember(signals, CloseDatePassed, some[i]);
    }
    PointsAreSubstantial(some);
    if s :| s in all && s.entity == deal {
      OnEntityMember(all, deal, s);
    }
    if some != [] {
      assert some[0] in all;
    }
  }

  ghost predicate Explained(r: Risk, account: Id) {
    && r.account == account
    && 1 <= r.score <= 100
    && r.score == (if Points(r.factors) > 100 then 100 else Points(r.factors))
    && r.severity == SeverityForScore(r.score)
  }

  lemma {:induction false} RenewalMember(account: Id, expiring: seq<Signal>, r: Risk)
    requires forall s | s in expiring :: s.kind == ContractExpiring
    ensures r in RenewalRisks(account, expiring)
       <==> exists s :: s in expiring && [r] == Scored(RenewalRisk, Contract, s.entity, account, RenewalFactors(s))
  {
    if expiring != [] {
      var n := |expiring| - 1;
      var last := expiring[n];
      assert last in expiring;
      RenewalMember(account, expiring[..n], r);
      RenewalPoints(last);
      InAppend(RenewalRisks(account, expiring[..n]), Scored(RenewalRisk, Contract, last.entity, account, RenewalFactors(last)), r);
      assert forall s :: s in expiring <==> s in expiring[..n] || s == last;
    }
  }

  lemma {:induction false} DealMember(account: Id, signals: seq<Signal>, deals: seq<Id>, r: Risk)
    ensures r in DealRisks(account, signals, deals)
       <==> r.entity in deals && [r] == Scored(DealRisk, Opportunity, r.entity, account, DealFactors(signals, r.entity))
  {
    if deals != [] {
      var n := |deals| - 1;
      DealMember(account, signals, deals[..n], r);
      InAppend(DealRisks(account, signals, deals[..n]),
               Scored(DealRisk, Opportunity, deals[n], account, DealFactors(signals, deals[n])), r);
      assert deals == deals[..n] + [deals[n]];
    }
  }

  /** Where a risk of an account comes from, by its type. */
  ghost predicate ScoredFrom(account: Id, signals: seq<Signal>, r: Risk) {
    match r.kind
    case RelationshipRisk => [r] == Scored(RelationshipRisk, Account, account, account, RelationshipFactors(signals))
    case VocRisk => [r] == Scored(VocRisk, Account, account, account, Factors(OfKind(signals, CriticalVoc)))
    case RenewalRisk => exists s :: s in signals && s.kind == ContractExpiring
                                    && [r] == Scored(RenewalRisk, Contract, s.entity, account, RenewalFactors(s))
    case DealRisk => [r] == Scored(DealRisk, Opportunity, r.entity, account, DealFactors(signals, r.entity))
  }

  lemma ScoredKind(kind: RiskType, entityType: EntityType, entity: Id, account: Id, factors: seq<Factor>, r: Risk)
    ensures r in Scored(kind, entityType, entity, account, factors) <==> [r] == Scored(kind, entityType, entity, account, factors)
    ensures r in Scored(kind, entityType, entity, account, factors) ==>
              r.kind == kind && r.Key() == RiskKey(kind, entityType, entity) && r.factors == factors && Explained(r, account)
  {
  }

  lemma RiskMember(account: Id, signals: seq<Signal>, r: Risk)
    ensures r in RisksOf(account, signals) <==> ScoredFrom(account, signals, r)
  {
    var first := Scored(RelationshipRisk, Account, account, account, RelationshipFactors(signals));
    var second := Scored(VocRisk, Account, account, account, Factors(OfKind(signals, CriticalVoc)));
    var expiring := OfKind(signals, ContractExpiring);
    var third := RenewalRisks(account, expiring);
    var deals := Sorted(EntitiesOf(SignalsOnDeals(signals)));
    var fourth := DealRisks(account, signals, deals);
    InAppend(first + second + third, fourth, r);
    InAppend(first + second, third, r);
    InAppend(first, second, r);
    ScoredKind(RelationshipRisk, Account, account, account, RelationshipFactors(signals), r);
    ScoredKind(VocRisk, Account, account, account, Factors(OfKind(signals, CriticalVoc)), r);
    RenewalOrigin(account, signals, r);
    DealOrigin(account, signals, r);
  }

  lemma {:induction false} RenewalOrigin(account: Id, signals: seq<Signal>, r: Risk)
    ensures r in RenewalRisks(account, OfKind(signals, ContractExpiring)) <==> r.kind == RenewalRisk && ScoredFrom(account, signals, r)
  {
    var expiring := OfKind(signals, ContractExpiring);
    forall s
      ensures s in expiring <==> s in signals && s.kind == ContractExpiring
    {
      OfKindMember(signals, ContractExpiring, s);
    }
    RenewalMember(account, expiring, r);
    if s :| s in expiring && [r] == Scored(RenewalRisk, Contract, s.entity, account, RenewalFactors(s)) {
      ScoredKind(RenewalRisk, Contract, s.entity, account, RenewalFactors(s), r);
    }
  }

  lemma {:induction false} DealOrigin(account: Id, signals: seq<Signal>, r: Risk)
    ensures r in DealRisks(account, signals, Sorted(EntitiesOf(SignalsOnDeals(signals)))) <==> r.kind == DealRisk && ScoredFrom(account, signals, r)
  {
    DealMember(account, signals, Sorted(EntitiesOf(SignalsOnDeals(signals))), r);
    ScoredKind(DealRisk, Opportunity, r.entity, account, DealFactors(signals, r.entity), r);
    DealPoints(signals, r.entity);
    EntitiesMember(SignalsOnDeals(signals), r.entity);
  }

  /** A score is the sum of its named factors, capped at 100, with its severity. */
  lemma ScoresAreExplained(account: Id, signals: seq<Signal>, r: Risk)
    requires r in RisksOf(account, signals)
    ensures Explained(r, account)
  {
    RiskMember(account, signals, r);
    match r.kind
    case RelationshipRisk => ScoredKind(RelationshipRisk, Account, account, account, RelationshipFactors(signals), r);
    case VocRisk => ScoredKind(VocRisk, Account, account, account, Factors(OfKind(signals, CriticalVoc)), r);
    case RenewalRisk =>
      var s :| s in signals && s.kind == ContractExpiring
               && [r] == Scored(RenewalRisk, Contract, s.entity, account, RenewalFactors(s));
      ScoredKind(RenewalRisk, Contract, s.entity, account, RenewalFactors(s), r);
    case DealRisk => ScoredKind(DealRisk, Opportunity, r.entity, account, DealFactors(signals, r.entity), r);
  }

  /** Which risks an account has, read off its signals alone. */
  ghost predicate RiskHolds(account: Id, signals: seq<Signal>, k: RiskKey) {
    match k.kind
    case RelationshipRisk =>
      k.entityType == Account && k.entity == account
      && exists s :: s in signals && (s.kind == NoContact || s.kind == DecisionMakerMissing)
    case VocRisk =>
      k.entityType == Account && k.entity == account && exists s :: s in signals && s.kind == CriticalVoc
    case RenewalRisk =>
      k.entityType == Contract && exists s :: s in signals && s.kind == ContractExpiring && s.entity == k.entity
    case DealRisk =>
      k.entityType == Opportunity
      && exists s :: s in signals && (s.kind == DealStalled || s.kind == CloseDatePassed) && s.entity == k.entity
  }

  ghost predicate HasRisk(risks: seq<Risk>, k: RiskKey) {
    exists r :: r in risks && r.Key() == k
  }

  lemma {:induction false} HasScored(kind: RiskType, entityType: EntityType, entity: Id, account: Id,
        factors: seq<Factor>)
    requires Points(factors) > 0
    ensures var r := Scored(kind, entityType, entity, account, factors)[0];
            [r] == Scored(kind, entityType, entity, account, factors) && r.Key() == RiskKey(kind, entityType, entity) && r.kind == kind && r.entity == entity
  {
  }

  lemma {:induction false} AccountRiskHolds(account: Id, signals: seq<Signal>)
    ensures Points(RelationshipFactors(signals)) > 0 <==> RiskHolds(account, signals, RiskKey(RelationshipRisk, Account, account))
    ensures Points(Factors(OfKind(signals, CriticalVoc))) > 0 <==> RiskHolds(account, signals, RiskKey(VocRisk, Account, account))
  {
    RelationshipPoints(signals);
    OfKindPoints(signals, CriticalVoc);
    KindPresent(signals, NoContact);
    KindPresent(signals, DecisionMakerMissing);
    KindPresent(signals, CriticalVoc);
  }

  lemma {:induction false} KindPresent(signals: seq<Signal>, kind: SignalType)
    ensures OfKind(signals, kind) != [] <==> exists s :: s in signals && s.kind == kind
  {
    if OfKind(signals, kind) != [] {
      OfKindMember(signals, kind, OfKind(signals, kind)[0]);
    }
    if s :| s in signals && s.kind == kind {
      OfKindMember(signals, kind, s);
    }
  }

  /** A risk is present exactly when a signal behind it holds: whatever counts
      against it, and whatever the order of the signals. */
  lemma RiskIffSignal(account: Id, signals: seq<Signal>, k: RiskKey)
    ensures HasRisk(RisksOf(account, signals), k) <==> RiskHolds(account, signals, k)
  {
    if r :| r in RisksOf(account, signals) && r.Key() == k {
      RiskMember(account, signals, r);
      RiskHasSignal(account, signals, r);
    }
    if RiskHolds(account, signals, k) {
      var r := SignalGivesRisk(account, signals, k);
      RiskMember(account, signals, r);
    }
  }

  lemma RiskHasSignal(account: Id, signals: seq<Signal>, r: Risk)
    requires ScoredFrom(account, signals, r)
    ensures RiskHolds(account, signals, r.Key())
  {
    AccountRiskHolds(account, signals);
    match r.kind
    case RelationshipRisk => ScoredKind(RelationshipRisk, Account, account, account, RelationshipFactors(signals), r);
    case VocRisk => ScoredKind(VocRisk, Account, account, account, Factors(OfKind(signals, CriticalVoc)), r);
    case RenewalRisk =>
      var s :| s in signals && s.kind == ContractExpiring
               && [r] == Scored(RenewalRisk, Contract, s.entity, account, RenewalFactors(s));
      ScoredKind(RenewalRisk, Contract, s.entity, account, RenewalFactors(s), r);
    case DealRisk =>
      ScoredKind(DealRisk, Opportunity, r.entity, account, DealFactors(signals, r.entity), r);
      DealPoints(signals, r.entity);
      var s :| s in SignalsOnDeals(signals) && s.entity == r.entity;
      OfKindMember(signals, DealStalled, s);
      OfKindMember(signals, CloseDatePassed, s);
  }

  lemma SignalGivesRisk(account: Id, signals: seq<Signal>, k: RiskKey) returns (r: Risk)
    requires RiskHolds(account, signals, k)
    ensures r.Key() == k && ScoredFrom(account, signals, r)
  {
    AccountRiskHolds(account, signals);
    match k.kind
    case RelationshipRisk =>
      HasScored(RelationshipRisk, Account, account, account, RelationshipFactors(signals));
      r := Scored(RelationshipRisk, Account, account, account, RelationshipFactors(signals))[0];
    case VocRisk =>
      HasScored(VocRisk, Account, account, account, Factors(OfKind(signals, CriticalVoc)));
      r := Scored(VocRisk, Account, account, account, Factors(OfKind(signals, CriticalVoc)))[0];
    case RenewalRisk =>
      var s :| s in signals && s.kind == ContractExpiring && s.entity == k.entity;
      RenewalPoints(s);
      HasScored(RenewalRisk, Contract, s.entity, account, RenewalFactors(s));
      r := Scored(RenewalRisk, Contract, s.entity, account, RenewalFactors(s))[0];
    case DealRisk =>
      var s :| s in signals && (s.kind == DealStalled || s.kind == CloseDatePassed) && s.entity == k.entity;
      OfKindMember(signals, s.kind, s);
      assert s in SignalsOnDeals(signals);
      DealPoints(signals, k.entity);
      HasScored(DealRisk, Opportunity, k.entity, account, DealFactors(signals, k.entity));
      r := Scored(DealRisk, Opportunity, k.entity, account, DealFactors(signals, k.entity))[0];
  }

  /** Risk keys are distinct when no contract expires twice in the list. */
  lemma RiskKeysAreDistinct(account: Id, signals: seq<Signal>, r: Risk, q: Risk)
    requires r in RisksOf(account, signals) && q in RisksOf(account, signals) && r.Key() == q.Key()
    requires forall s, t | s in signals && t in signals && s.kind == ContractExpiring && t.kind == ContractExpiring && s.entity == t.entity :: s == t
    ensures r == q
  {
    RiskMember(account, signals, r);
    RiskMember(account, signals, q);
    if r.kind == RenewalRisk {
      var s :| s in signals && s.kind == ContractExpiring
               && [r] == Scored(RenewalRisk, Contract, s.entity, account, RenewalFactors(s));
      var t :| t in signals && t.kind == ContractExpiring
               && [q] == Scored(RenewalRisk, Contract, t.entity, account, RenewalFactors(t));
      ScoredKind(RenewalRisk, Contract, s.entity, account, RenewalFactors(s), r);
      ScoredKind(RenewalRisk, Contract, t.entity, account, RenewalFactors(t), q);
    }
    assert [r] == [q];
    assert [r][0] == [q][0];
  }
}

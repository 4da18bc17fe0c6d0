/** The risk scores of a pass, said in terms of the facts alone, and what the stored
    rows show after it. */
module RiskFacts {
  import opened Wrappers
  import opened Ordering
  import opened SignalRules
  import opened SignalFacts
  import opened RiskScoring
  import opened PassOrder
  import opened EngineSpec
  import opened EngineScan
  import Rec = Reconciliation

  // ----- The scores -----

  function ContactPoints(a: AccountFacts, now: int): int {
    if a.lastContact.None? || DaysPassed(a.lastContact.value, now, 60) then 50
    else if DaysPassed(a.lastContact.value, now, 30) then 35
    else 0
  }

  function MakerPoints(a: AccountFacts): int {
    if a.contacts == 0 then 35 else if a.decisionMakers == 0 then 25 else 0
  }

  predicate IsEngaged(a: AccountFacts) {
    a.recentTouches >= 3 && a.recentTouches > a.priorTouches
  }

  /** Growing engagement takes 20 points off a relationship risk; without one it counts
      for nothing. */
  function RelationshipScore(a: AccountFacts, now: int): int {
    var points := ContactPoints(a, now) + MakerPoints(a);
    if points > 0 && IsEngaged(a) then points - 20 else points
  }

  function VoiceScore(a: AccountFacts): int {
    if a.criticalVoices > 0 then 75 else 0
  }

  function StalledPoints(d: DealFacts, now: int): int {
    if DaysPassed(d.stageEntered, now, 60) then 60 else if DaysPassed(d.stageEntered, now, 30) then 45 else 0
  }

  function OverduePoints(d: DealFacts, today: int): int {
    if d.closeDate.Some? && d.closeDate.value < today then 55 else 0
  }

  function AtMost100(points: int): int {
    if points > 100 then 100 else points
  }

  function DealScore(d: DealFacts, now: int, today: int): int {
    if d.open then AtMost100(StalledPoints(d, now) + OverduePoints(d, today)) else 0
  }

  function RenewalScore(c: ContractFacts, today: int): int {
    var left := c.endDate - today;
    if left < 0 || left > 90 then 0
    else if c.renewal != "NOT_STARTED" then (if left <= 30 then 60 else 40)
    else if left <= 14 && !c.autoRenew then 100
    else if left <= 30 then 75
    else 55
  }

  // ----- Signals of one kind in the list of an account -----

  lemma {:induction false} OfKindAppend(s: seq<Signal>, t: seq<Signal>, kind: SignalType)
    ensures OfKind(s + t, kind) == OfKind(s, kind) + OfKind(t, kind)
  {
    if t == [] {
      assert s + t == s;
    } else {
      var before, last := t[..|t| - 1], t[|t| - 1];
      OfKindAppend(s, before, kind);
      assert s + t == s + before + [last];
      assert (s + before + [last])[..|s + before|] == s + before;
    }
  }

  lemma {:induction false} OnEntityAppend(s: seq<Signal>, t: seq<Signal>, entity: Id)
    ensures OnEntity(s + t, entity) == OnEntity(s, entity) + OnEntity(t, entity)
  {
    if t == [] {
      assert s + t == s;
    } else {
      var before, last := t[..|t| - 1], t[|t| - 1];
      OnEntityAppend(s, before, entity);
      assert s + t == s + before + [last];
      assert (s + before + [last])[..|s + before|] == s + before;
    }
  }

  lemma {:induction false} NoneOfKind(s: seq<Signal>, kind: SignalType)
    requires forall x | x in s :: x.kind != kind
    ensures OfKind(s, kind) == []
  {
    if OfKind(s, kind) != [] {
      OfKindMember(s, kind, OfKind(s, kind)[0]);
    }
  }

  lemma {:induction false} AllOfKind(s: seq<Signal>, kind: SignalType)
    requires forall x | x in s :: x.kind == kind
    ensures OfKind(s, kind) == s
  {
    if s != [] {
      assert s == s[..|s| - 1] + [s[|s| - 1]];
      AllOfKind(s[..|s| - 1], kind);
    }
  }

  lemma {:induction false} AllOnEntity(s: seq<Signal>, owner: Id, entity: Id)
    requires forall x | x in s :: x.entity == owner
    ensures OnEntity(s, entity) == if entity == owner then s else []
  {
    if s != [] {
      assert s == s[..|s| - 1] + [s[|s| - 1]];
      AllOnEntity(s[..|s| - 1], owner, entity);
    }
  }

  predicate AboutAccount(kind: SignalType) {
    kind != DealStalled && kind != CloseDatePassed && kind != ContractExpiring
  }

  /** Of an account's own kinds the list holds what the account itself emits. */
  lemma {:induction false} AccountKinds(f: Facts, a: Id, kind: SignalType)
    requires a in f.accounts && AboutAccount(kind)
    ensures OfKind(ListOf(f, a), kind) == OfKind(AccountSignals(a, f.accounts[a], f.now), kind)
  {
    var order := Sorted(f.deals.Keys);
    var own, onDeals, onContracts := AccountSignalsIn(f, a), DealSignalsIn(f, order, a), ContractSignalsIn(f, f.contracts, a);
    NoAccountKindElsewhere(f, order, a, kind);
    OfKindAppend(own + onDeals, onContracts, kind);
    OfKindAppend(own, onDeals, kind);
  }

  lemma {:induction false} NoAccountKindElsewhere(f: Facts, order: seq<Id>, a: Id, kind: SignalType)
    requires AboutAccount(kind)
    ensures OfKind(DealSignalsIn(f, order, a), kind) == [] && OfKind(ContractSignalsIn(f, f.contracts, a), kind) == []
  {
    forall s | s in DealSignalsIn(f, order, a)
      ensures s.kind != kind
    {
      DealSignalsMember(f, order, a, s);
      var d :| d in order && d in f.deals && s in DealSignals(d, f.deals[d], f.now, f.today);
      KindsOfDeal(d, f.deals[d], f.now, f.today, s);
    }
    forall s | s in ContractSignalsIn(f, f.contracts, a)
      ensures s.kind != kind
    {
      ContractSignalsMember(f, f.contracts, a, s);
    }
    NoneOfKind(DealSignalsIn(f, order, a), kind);
    NoneOfKind(ContractSignalsIn(f, f.contracts, a), kind);
  }

  /** An unscanned account has no signal of its own kinds. */
  lemma {:induction false} UnscannedKinds(f: Facts, a: Id, kind: SignalType)
    requires a !in f.accounts && AboutAccount(kind)
    ensures OfKind(ListOf(f, a), kind) == []
  {
    var order := Sorted(f.deals.Keys);
    var onDeals, onContracts := DealSignalsIn(f, order, a), ContractSignalsIn(f, f.contracts, a);
    NoAccountKindElsewhere(f, order, a, kind);
    OfKindAppend([] + onDeals, onContracts, kind);
    assert [] + onDeals == onDeals;
  }

  /** The account's list of one kind is that part of it. */
  lemma AccountParts(id: Id, a: AccountFacts, now: int)
    ensures var own := AccountSignals(id, a, now);
            && OfKind(own, NoContact) == NoContactSignal(id, a, now)
            && OfKind(own, DecisionMakerMissing) == DecisionMakerSignal(id, a)
            && OfKind(own, CriticalVoc) == VoiceSignal(id, a)
            && (OfKind(own, EngagementIncrease) != [] <==> IsEngaged(a))
  {
    PartOf(id, a, now, NoContact);
    PartOf(id, a, now, DecisionMakerMissing);
    PartOf(id, a, now, CriticalVoc);
    PartOf(id, a, now, EngagementIncrease);
    PositiveParts(id, a);
  }

  lemma {:induction false} OfFour(p: seq<Signal>, q: seq<Signal>, r: seq<Signal>, t: seq<Signal>, kind: SignalType)
    ensures OfKind(p + q + r + t, kind) == OfKind(p, kind) + OfKind(q, kind) + OfKind(r, kind) + OfKind(t, kind)
  {
    OfKindAppend(p + q + r, t, kind);
    OfKindAppend(p + q, r, kind);
    OfKindAppend(p, q, kind);
  }

  lemma {:induction false} FourParts(p: seq<Signal>, q: seq<Signal>, r: seq<Signal>, t: seq<Signal>, kind: SignalType)
    requires AboutAccount(kind) && kind != QuoteRequested
    requires (forall x | x in p :: x.kind == NoContact) && (forall x | x in q :: x.kind == DecisionMakerMissing)
    requires (forall x | x in r :: x.kind == CriticalVoc)
    requires forall x | x in t :: x.kind == EngagementIncrease || x.kind == QuoteRequested
    ensures OfKind(p + q + r + t, kind)
         == if kind == NoContact then p else if kind == DecisionMakerMissing then q
            else if kind == CriticalVoc then r else OfKind(t, kind)
  {
    OfFour(p, q, r, t, kind);
    Sorting(p, NoContact, kind);
    Sorting(q, DecisionMakerMissing, kind);
    Sorting(r, CriticalVoc, kind);
    if kind != EngagementIncrease {
      NoneOfKind(t, kind);
    }
    OneOfFour(OfKind(p, kind), OfKind(q, kind), OfKind(r, kind), OfKind(t, kind));
  }

  lemma OneOfFour(p: seq<Signal>, q: seq<Signal>, r: seq<Signal>, t: seq<Signal>)
    ensures q == [] && r == [] && t == [] ==> p + q + r + t == p
    ensures p == [] && r == [] && t == [] ==> p + q + r + t == q
    ensures p == [] && q == [] && t == [] ==> p + q + r + t == r
    ensures p == [] && q == [] && r == [] ==> p + q + r + t == t
  {
  }

  lemma {:induction false} PartOf(id: Id, a: AccountFacts, now: int, kind: SignalType)
    requires AboutAccount(kind) && kind != QuoteRequested
    ensures OfKind(AccountSignals(id, a, now), kind)
         == match kind
            case NoContact => NoContactSignal(id, a, now)
            case DecisionMakerMissing => DecisionMakerSignal(id, a)
            case CriticalVoc => VoiceSignal(id, a)
            case _ => OfKind(PositiveSignals(id, a), kind)
  {
    KindsOfParts(id, a, now);
    FourParts(NoContactSignal(id, a, now), DecisionMakerSignal(id, a), VoiceSignal(id, a), PositiveSignals(id, a), kind);
  }

  lemma KindsOfParts(id: Id, a: AccountFacts, now: int)
    ensures forall s | s in NoContactSignal(id, a, now) :: s.kind == NoContact
    ensures forall s | s in DecisionMakerSignal(id, a) :: s.kind == DecisionMakerMissing
    ensures forall s | s in VoiceSignal(id, a) :: s.kind == CriticalVoc
    ensures forall s | s in PositiveSignals(id, a) :: s.kind == EngagementIncrease || s.kind == QuoteRequested
  {
  }

  lemma {:induction false} Sorting(s: seq<Signal>, own: SignalType, kind: SignalType)
    requires forall x | x in s :: x.kind == own
    ensures OfKind(s, kind) == if kind == own then s else []
  {
    if kind == own {
      AllOfKind(s, kind);
    } else {
      NoneOfKind(s, kind);
    }
  }

  lemma PositiveParts(id: Id, a: AccountFacts)
    ensures OfKind(PositiveSignals(id, a), EngagementIncrease) != [] <==> IsEngaged(a)
  {
    var growing := Signal(EngagementIncrease, Low, Account, id, id, id, None);
    KindPresent(PositiveSignals(id, a), EngagementIncrease);
    if IsEngaged(a) {
      assert growing in PositiveSignals(id, a);
    }
  }

  // ----- Points -----

  lemma PointsOfShort(s: seq<Signal>)
    requires |s| <= 1
    ensures Points(Factors(s)) == if s == [] then 0 else PointsOf(s[0])
  {
  }

  lemma AccountPoints(id: Id, a: AccountFacts, now: int)
    ensures Points(Factors(NoContactSignal(id, a, now))) == ContactPoints(a, now)
    ensures Points(Factors(DecisionMakerSignal(id, a))) == MakerPoints(a)
    ensures Points(Factors(VoiceSignal(id, a))) == VoiceScore(a)
  {
    if a.lastContact.Some? {
      WholeDaysReach(now - a.lastContact.value, 30);
      WholeDaysReach(now - a.lastContact.value, 60);
    }
    PointsOfShort(NoContactSignal(id, a, now));
    PointsOfShort(DecisionMakerSignal(id, a));
    PointsOfShort(VoiceSignal(id, a));
  }

  /** Of each own kind, the account's list is that part of what it emits. */
  lemma ListParts(f: Facts, a: Id)
    requires a in f.accounts
    ensures OfKind(ListOf(f, a), NoContact) == NoContactSignal(a, f.accounts[a], f.now)
    ensures OfKind(ListOf(f, a), DecisionMakerMissing) == DecisionMakerSignal(a, f.accounts[a])
    ensures OfKind(ListOf(f, a), CriticalVoc) == VoiceSignal(a, f.accounts[a])
    ensures OfKind(ListOf(f, a), EngagementIncrease) != [] <==> IsEngaged(f.accounts[a])
  {
    AccountKinds(f, a, NoContact);
    AccountKinds(f, a, DecisionMakerMissing);
    AccountKinds(f, a, CriticalVoc);
    AccountKinds(f, a, EngagementIncrease);
    AccountParts(a, f.accounts[a], f.now);
  }

  lemma {:induction false} SumOfRelationship(l: seq<Signal>, p: seq<Signal>, q: seq<Signal>)
    requires OfKind(l, NoContact) == p && OfKind(l, DecisionMakerMissing) == q
    ensures Points(RelationshipFactors(l))
         == Points(Factors(p)) + Points(Factors(q))
            - if (p != [] || q != []) && OfKind(l, EngagementIncrease) != [] then 20 else 0
  {
    var base := Factors(p) + Factors(q);
    PointsAppend(Factors(p), Factors(q));
    var engaged := OfKind(l, EngagementIncrease);
    if |engaged| > 0 && |base| > 0 {
      OfKindMember(l, EngagementIncrease, engaged[0]);
      PointsAppend(base, [FactorOf(engaged[0])]);
      assert Points([FactorOf(engaged[0])]) == -20;
    }
  }

  lemma PartsPresent(id: Id, a: AccountFacts, now: int)
    ensures NoContactSignal(id, a, now) != [] <==> ContactPoints(a, now) > 0
    ensures DecisionMakerSignal(id, a) != [] <==> MakerPoints(a) > 0
  {
    if a.lastContact.Some? {
      WholeDaysReach(now - a.lastContact.value, 30);
      WholeDaysReach(now - a.lastContact.value, 60);
    }
  }

  lemma RelationshipIsScored(f: Facts, a: Id)
    requires a in f.accounts
    ensures Points(RelationshipFactors(ListOf(f, a))) == RelationshipScore(f.accounts[a], f.now)
  {
    var facts := f.accounts[a];
    ListParts(f, a);
    SumOfRelationship(ListOf(f, a), NoContactSignal(a, facts, f.now), DecisionMakerSignal(a, facts));
    AccountPoints(a, facts, f.now);
    PartsPresent(a, facts, f.now);
  }

  lemma VoiceIsScored(f: Facts, a: Id)
    requires a in f.accounts
    ensures Points(Factors(OfKind(ListOf(f, a), CriticalVoc))) == VoiceScore(f.accounts[a])
  {
    ListParts(f, a);
    AccountPoints(a, f.accounts[a], f.now);
  }

  // ----- Deals -----

  predicate AboutDeal(kind: SignalType) {
    kind == DealStalled || kind == CloseDatePassed
  }

  /** One deal more in the order adds what it emits, if it is the deal asked for. */
  lemma {:induction false} NextDealKinds(before: seq<Signal>, last: seq<Signal>, x: Id, d: Id, kind: SignalType)
    requires forall s | s in last :: s.entity == x
    ensures OnEntity(OfKind(before + last, kind), d)
         == OnEntity(OfKind(before, kind), d) + if x == d then OfKind(last, kind) else []
  {
    OfKindAppend(before, last, kind);
    OnEntityAppend(OfKind(before, kind), OfKind(last, kind), d);
    forall s | s in OfKind(last, kind)
      ensures s.entity == x
    {
      OfKindMember(last, kind, s);
    }
    AllOnEntity(OfKind(last, kind), x, d);
  }

  ghost function EmittedOn(f: Facts, a: Id, x: Id): seq<Signal> {
    if x in f.deals && f.deals[x].account == a then DealSignals(x, f.deals[x], f.now, f.today) else []
  }

  lemma EmittedOnIt(f: Facts, a: Id, x: Id)
    ensures forall s | s in EmittedOn(f, a, x) :: s.entity == x
  {
    forall s | s in EmittedOn(f, a, x)
      ensures s.entity == x
    {
      KindsOfDeal(x, f.deals[x], f.now, f.today, s);
    }
  }

  /** On one deal, the list of its account holds what the deal itself emits. */
  lemma {:induction false} DealKinds(f: Facts, order: seq<Id>, a: Id, d: Id, kind: SignalType)
    requires d in f.deals && forall i, j | 0 <= i < j < |order| :: order[i] != order[j]
    ensures OnEntity(OfKind(DealSignalsIn(f, order, a), kind), d) == if d in order then OfKind(EmittedOn(f, a, d), kind) else []
  {
    if order != [] {
      var n := |order| - 1;
      DealKinds(f, order[..n], a, d, kind);
      EmittedOnIt(f, a, order[n]);
      NextDealKinds(DealSignalsIn(f, order[..n], a), EmittedOn(f, a, order[n]), order[n], d, kind);
      LastOfOrder(order, d);
      NothingAdded(OnEntity(OfKind(DealSignalsIn(f, order[..n], a), kind), d));
      NothingAdded(OfKind(EmittedOn(f, a, d), kind));
    }
  }

  lemma LastOfOrder(order: seq<Id>, d: Id)
    requires order != [] && forall i, j | 0 <= i < j < |order| :: order[i] != order[j]
    ensures var n := |order| - 1;
            (d in order <==> d in order[..n] || d == order[n]) && order[n] !in order[..n]
  {
  }

  lemma NothingAdded(s: seq<Signal>)
    ensures s + [] == s && [] + s == s
  {
  }

  lemma {:induction false} OnlyMiddle(p: seq<Signal>, q: seq<Signal>, r: seq<Signal>, kind: SignalType)
    requires (forall x | x in p :: x.kind != kind) && (forall x | x in r :: x.kind != kind)
    ensures OfKind(p + q + r, kind) == OfKind(q, kind)
  {
    OfKindAppend(p + q, r, kind);
    OfKindAppend(p, q, kind);
    NoneOfKind(p, kind);
    NoneOfKind(r, kind);
  }

  lemma {:induction false} NoDealKindElsewhere(f: Facts, a: Id, kind: SignalType)
    requires AboutDeal(kind)
    ensures forall s | s in AccountSignalsIn(f, a) :: s.kind != kind
    ensures forall s | s in ContractSignalsIn(f, f.contracts, a) :: s.kind != kind
  {
    forall s | s in AccountSignalsIn(f, a)
      ensures s.kind != kind
    {
      KindsOfAccount(a, f.accounts[a], f.now, s);
    }
    forall s | s in ContractSignalsIn(f, f.contracts, a)
      ensures s.kind != kind
    {
      ContractSignalsMember(f, f.contracts, a, s);
    }
  }

  lemma {:induction false} OnlyDealsEmit(f: Facts, a: Id, kind: SignalType)
    requires AboutDeal(kind)
    ensures OfKind(ListOf(f, a), kind) == OfKind(DealSignalsIn(f, Sorted(f.deals.Keys), a), kind)
  {
    NoDealKindElsewhere(f, a, kind);
    OnlyMiddle(AccountSignalsIn(f, a), DealSignalsIn(f, Sorted(f.deals.Keys), a), ContractSignalsIn(f, f.contracts, a), kind);
  }

  function StalledPart(id: Id, d: DealFacts, now: int): seq<Signal> {
    var stalled := WholeDays(now - d.stageEntered);
    When(stalled >= STALLED_DAYS,
         Signal(DealStalled, if stalled >= STALLED_DAYS * 2 then High else Medium, Opportunity, id, d.account, id, None))
  }

  function OverduePart(id: Id, d: DealFacts, today: int): seq<Signal> {
    When(d.closeDate.Some? && today - d.closeDate.value > 0,
         Signal(CloseDatePassed, High, Opportunity, id, d.account, id, None))
  }

  lemma {:induction false} TwoParts(p: seq<Signal>, q: seq<Signal>)
    requires (forall x | x in p :: x.kind == DealStalled) && (forall x | x in q :: x.kind == CloseDatePassed)
    ensures OfKind(p + q, DealStalled) == p && OfKind(p + q, CloseDatePassed) == q
  {
    OfKindAppend(p, q, DealStalled);
    OfKindAppend(p, q, CloseDatePassed);
    Sorting(p, DealStalled, DealStalled);
    Sorting(p, DealStalled, CloseDatePassed);
    Sorting(q, CloseDatePassed, DealStalled);
    Sorting(q, CloseDatePassed, CloseDatePassed);
    assert p + [] == p && [] + q == q;
  }

  lemma PartPoints(id: Id, d: DealFacts, now: int, today: int)
    ensures Points(Factors(StalledPart(id, d, now))) == StalledPoints(d, now)
    ensures Points(Factors(OverduePart(id, d, today))) == OverduePoints(d, today)
  {
    WholeDaysReach(now - d.stageEntered, 30);
    WholeDaysReach(now - d.stageEntered, 60);
    PointsOfShort(StalledPart(id, d, now));
    PointsOfShort(OverduePart(id, d, today));
  }

  lemma DealParts(id: Id, d: DealFacts, now: int, today: int)
    ensures var own := DealSignals(id, d, now, today);
            && Points(Factors(OfKind(own, DealStalled))) == (if d.open then StalledPoints(d, now) else 0)
            && Points(Factors(OfKind(own, CloseDatePassed))) == (if d.open then OverduePoints(d, today) else 0)
  {
    if d.open {
      TwoParts(StalledPart(id, d, now), OverduePart(id, d, today));
      PartPoints(id, d, now, today);
      assert DealSignals(id, d, now, today) == StalledPart(id, d, now) + OverduePart(id, d, today);
    }
  }

  lemma FactorsAppend(s: seq<Signal>, t: seq<Signal>)
    ensures Factors(s + t) == Factors(s) + Factors(t)
  {
  }

  lemma DealIsScored(f: Facts, d: Id)
    requires d in f.deals
    ensures AtMost100(Points(DealFactors(ListOf(f, f.deals[d].account), d))) == DealScore(f.deals[d], f.now, f.today)
  {
    var a, order := f.deals[d].account, Sorted(f.deals.Keys);
    var own := DealSignals(d, f.deals[d], f.now, f.today);
    var l := ListOf(f, a);
    SortedEnumerates(f.deals.Keys);
    OnlyDealsEmit(f, a, DealStalled);
    OnlyDealsEmit(f, a, CloseDatePassed);
    DealKinds(f, order, a, d, DealStalled);
    DealKinds(f, order, a, d, CloseDatePassed);
    OnEntityAppend(OfKind(l, DealStalled), OfKind(l, CloseDatePassed), d);
    FactorsAppend(OfKind(own, DealStalled), OfKind(own, CloseDatePassed));
    PointsAppend(Factors(OfKind(own, DealStalled)), Factors(OfKind(own, CloseDatePassed)));
    DealParts(d, f.deals[d], f.now, f.today);
  }

  // ----- Contracts -----

  lemma ContractIsScored(c: ContractFacts, today: int, s: Signal)
    requires s in ContractSignals(c, today)
    ensures AtMost100(Points(RenewalFactors(s))) == RenewalScore(c, today)
  {
    ContractSignalIff(c, today, s);
    assert Points([FactorOf(s)]) == PointsOf(s);
    PointsAppend([FactorOf(s)], [Factor(RenewalNotStarted, 15)]);
    assert Points([Factor(RenewalNotStarted, 15)]) == 15;
    assert [FactorOf(s)] + [] == [FactorOf(s)];
  }

  // ----- The risks of a pass -----

  /** What the facts say about a risk key of an account: its score, or zero. */
  ghost function ScoreByFacts(f: Facts, a: Id, kind: RiskType): int {
    if a !in f.accounts then 0
    else match kind
      case RelationshipRisk => RelationshipScore(f.accounts[a], f.now)
      case VocRisk => VoiceScore(f.accounts[a])
      case _ => 0
  }

  /** The score is the one the facts give, and the severity goes with it. */
  ghost predicate ByFacts(f: Facts, r: Risk) {
    && r.score > 0
    && r.severity == (if r.score >= 90 then Critical else if r.score >= 70 then High else if r.score >= 40 then Medium else Low)
    && match r.kind
       case RelationshipRisk => r.entity == r.account && r.score == ScoreByFacts(f, r.account, RelationshipRisk)
       case VocRisk => r.entity == r.account && r.score == ScoreByFacts(f, r.account, VocRisk)
       case RenewalRisk =>
         exists c :: c in f.contracts && c.id == r.entity && c.account == r.account && r.score == RenewalScore(c, f.today)
       case DealRisk =>
         && r.entity in f.deals && f.deals[r.entity].account == r.account
         && r.score == DealScore(f.deals[r.entity], f.now, f.today)
  }

  lemma {:induction false} ScoredIs(kind: RiskType, entityType: EntityType, entity: Id, account: Id,
        factors: seq<Factor>, r: Risk)
    requires [r] == Scored(kind, entityType, entity, account, factors)
    ensures Points(factors) > 0 && r.score == AtMost100(Points(factors)) && r.severity == SeverityForScore(r.score)
    ensures r.kind == kind && r.entity == entity && r.account == account && r.factors == factors
  {
    assert [r][0] == r;
  }

  lemma {:induction false} NoPoints(l: seq<Signal>)
    requires OfKind(l, NoContact) == [] && OfKind(l, DecisionMakerMissing) == [] && OfKind(l, CriticalVoc) == []
    ensures Points(RelationshipFactors(l)) == 0 && Points(Factors(OfKind(l, CriticalVoc))) == 0
  {
  }

  lemma UnscannedHasNoPoints(f: Facts, a: Id)
    requires a !in f.accounts
    ensures Points(RelationshipFactors(ListOf(f, a))) == 0 && Points(Factors(OfKind(ListOf(f, a), CriticalVoc))) == 0
  {
    UnscannedKinds(f, a, NoContact);
    UnscannedKinds(f, a, DecisionMakerMissing);
    UnscannedKinds(f, a, CriticalVoc);
    NoPoints(ListOf(f, a));
  }

  lemma ScoresOfScanned(f: Facts, a: Id)
    requires a in f.accounts
    ensures ScoreByFacts(f, a, RelationshipRisk) == AtMost100(RelationshipScore(f.accounts[a], f.now))
    ensures ScoreByFacts(f, a, VocRisk) == AtMost100(VoiceScore(f.accounts[a]))
  {
  }

  lemma ScannedByFacts(f: Facts, a: Id, relationship: int, voice: int)
    requires a in f.accounts
    requires Points(RelationshipFactors(ListOf(f, a))) == relationship == RelationshipScore(f.accounts[a], f.now)
    requires Points(Factors(OfKind(ListOf(f, a), CriticalVoc))) == voice == VoiceScore(f.accounts[a])
    ensures AtMost100(Points(RelationshipFactors(ListOf(f, a)))) == ScoreByFacts(f, a, RelationshipRisk)
    ensures AtMost100(Points(Factors(OfKind(ListOf(f, a), CriticalVoc)))) == ScoreByFacts(f, a, VocRisk)
  {
    ScoresOfScanned(f, a);
  }

  lemma {:induction false} AccountRiskByFacts(f: Facts, a: Id, l: seq<Signal>)
    requires l == ListOf(f, a)
    ensures AtMost100(Points(RelationshipFactors(l))) == ScoreByFacts(f, a, RelationshipRisk)
    ensures AtMost100(Points(Factors(OfKind(l, CriticalVoc)))) == ScoreByFacts(f, a, VocRisk)
  {
    if a in f.accounts {
      RelationshipIsScored(f, a);
      VoiceIsScored(f, a);
      ScannedByFacts(f, a, RelationshipScore(f.accounts[a], f.now), VoiceScore(f.accounts[a]));
    } else {
      UnscannedHasNoPoints(f, a);
    }
  }

  lemma ExpiringHasContract(f: Facts, a: Id, s: Signal) returns (c: ContractFacts)
    requires s in ListOf(f, a) && s.kind == ContractExpiring
    ensures c in f.contracts && c.id == s.entity && c.account == a && s in ContractSignals(c, f.today)
  {
    ListMember(f, a, s);
    Emitter(f, s);
    c :| c in f.contracts && c.id == s.entity && s in ContractSignals(c, f.today);
    ContractSignalIff(c, f.today, s);
  }

  /** A deal signal in the list of an account is one of the account's deals. */
  lemma DealSignalHasDeal(f: Facts, a: Id, l: seq<Signal>, s: Signal)
    requires l == ListOf(f, a) && s in SignalsOnDeals(l)
    ensures s in l && AboutDeal(s.kind) && s.entity in f.deals && f.deals[s.entity].account == a
  {
    OfKindMember(l, DealStalled, s);
    OfKindMember(l, CloseDatePassed, s);
    ListMember(f, a, s);
    Emitter(f, s);
    KindsOfDeal(s.entity, f.deals[s.entity], f.now, f.today, s);
  }

  lemma DealByFacts(f: Facts, a: Id, l: seq<Signal>, d: Id)
    requires l == ListOf(f, a) && Points(DealFactors(l, d)) > 0
    ensures d in f.deals && f.deals[d].account == a
    ensures AtMost100(Points(DealFactors(l, d))) == DealScore(f.deals[d], f.now, f.today)
  {
    DealPoints(l, d);
    var s :| s in SignalsOnDeals(l) && s.entity == d;
    DealSignalHasDeal(f, a, l, s);
    DealIsScored(f, d);
  }

  lemma RenewalRiskByFacts(f: Facts, a: Id, s: Signal, r: Risk)
    requires s in ListOf(f, a) && s.kind == ContractExpiring
    requires [r] == Scored(RenewalRisk, Contract, s.entity, a, RenewalFactors(s))
    ensures r.account == a && ByFacts(f, r)
  {
    ScoredIs(RenewalRisk, Contract, s.entity, a, RenewalFactors(s), r);
    var c := ExpiringHasContract(f, a, s);
    ContractIsScored(c, f.today, s);
  }

  lemma DealRiskByFacts(f: Facts, a: Id, l: seq<Signal>, r: Risk)
    requires l == ListOf(f, a) && [r] == Scored(DealRisk, Opportunity, r.entity, a, DealFactors(l, r.entity))
    ensures r.account == a && ByFacts(f, r)
  {
    ScoredIs(DealRisk, Opportunity, r.entity, a, DealFactors(l, r.entity), r);
    DealByFacts(f, a, l, r.entity);
  }

  lemma {:induction false} OwnRiskByFacts(f: Facts, a: Id, l: seq<Signal>, r: Risk)
    requires l == ListOf(f, a)
    requires || [r] == Scored(RelationshipRisk, Account, a, a, RelationshipFactors(l))
             || [r] == Scored(VocRisk, Account, a, a, Factors(OfKind(l, CriticalVoc)))
    ensures r.account == a && ByFacts(f, r)
  {
    AccountRiskByFacts(f, a, l);
    if [r] == Scored(RelationshipRisk, Account, a, a, RelationshipFactors(l)) {
      ScoredIs(RelationshipRisk, Account, a, a, RelationshipFactors(l), r);
    } else {
      ScoredIs(VocRisk, Account, a, a, Factors(OfKind(l, CriticalVoc)), r);
    }
  }

  lemma ScoredIsByFacts(f: Facts, a: Id, l: seq<Signal>, r: Risk)
    requires l == ListOf(f, a) && ScoredFrom(a, l, r)
    ensures r.account == a && ByFacts(f, r)
  {
    match r.kind
    case RelationshipRisk => OwnRiskByFacts(f, a, l, r);
    case VocRisk => OwnRiskByFacts(f, a, l, r);
    case RenewalRisk =>
      var s :| s in l && s.kind == ContractExpiring && [r] == Scored(RenewalRisk, Contract, s.entity, a, RenewalFactors(s));
      RenewalRiskByFacts(f, a, s, r);
    case DealRisk => DealRiskByFacts(f, a, l, r);
  }

  /** Every risk of an account has the score and the severity the facts give. */
  lemma RiskIsByFacts(f: Facts, a: Id, r: Risk)
    requires r in RisksFor(f, a)
    ensures r.account == a && ByFacts(f, r)
  {
    RiskMember(a, ListOf(f, a), r);
    ScoredIsByFacts(f, a, ListOf(f, a), r);
  }

  /** And where the facts give a score there is a risk. */
  lemma FactsGiveRisks(f: Facts, a: Id)
    ensures ScoreByFacts(f, a, RelationshipRisk) > 0 ==> HasRisk(RisksFor(f, a), RiskKey(RelationshipRisk, Account, a))
    ensures ScoreByFacts(f, a, VocRisk) > 0 ==> HasRisk(RisksFor(f, a), RiskKey(VocRisk, Account, a))
    ensures forall d | d in f.deals && f.deals[d].account == a && DealScore(f.deals[d], f.now, f.today) > 0 ::
              HasRisk(RisksFor(f, a), RiskKey(DealRisk, Opportunity, d))
    ensures forall c | c in f.contracts && c.account == a && RenewalScore(c, f.today) > 0 ::
              HasRisk(RisksFor(f, a), RiskKey(RenewalRisk, Contract, c.id))
  {
    AccountGivesRisks(f, a, ListOf(f, a));
    forall d | d in f.deals && f.deals[d].account == a && DealScore(f.deals[d], f.now, f.today) > 0
      ensures HasRisk(RisksFor(f, a), RiskKey(DealRisk, Opportunity, d))
    {
      DealGivesRisk(f, a, ListOf(f, a), d);
    }
    forall c | c in f.contracts && c.account == a && RenewalScore(c, f.today) > 0
      ensures HasRisk(RisksFor(f, a), RiskKey(RenewalRisk, Contract, c.id))
    {
      ContractGivesRisk(f, a, c);
    }
  }

  lemma AccountGivesRisks(f: Facts, a: Id, l: seq<Signal>)
    requires l == ListOf(f, a)
    ensures ScoreByFacts(f, a, RelationshipRisk) > 0 ==> HasRisk(RisksOf(a, l), RiskKey(RelationshipRisk, Account, a))
    ensures ScoreByFacts(f, a, VocRisk) > 0 ==> HasRisk(RisksOf(a, l), RiskKey(VocRisk, Account, a))
  {
    AccountRiskByFacts(f, a, l);
    AccountRiskHolds(a, l);
    RiskIffSignal(a, l, RiskKey(RelationshipRisk, Account, a));
    RiskIffSignal(a, l, RiskKey(VocRisk, Account, a));
  }

  lemma DealSignalGivesRisk(a: Id, l: seq<Signal>, s: Signal)
    requires s in l && AboutDeal(s.kind)
    ensures HasRisk(RisksOf(a, l), RiskKey(DealRisk, Opportunity, s.entity))
  {
    RiskIffSignal(a, l, RiskKey(DealRisk, Opportunity, s.entity));
  }

  lemma ExpiringGivesRisk(a: Id, l: seq<Signal>, s: Signal)
    requires s in l && s.kind == ContractExpiring
    ensures HasRisk(RisksOf(a, l), RiskKey(RenewalRisk, Contract, s.entity))
  {
    RiskIffSignal(a, l, RiskKey(RenewalRisk, Contract, s.entity));
  }

  lemma PointsHaveSignal(l: seq<Signal>, d: Id) returns (s: Signal)
    requires Points(DealFactors(l, d)) > 0
    ensures s in SignalsOnDeals(l) && s.entity == d
  {
    DealPoints(l, d);
    s :| s in SignalsOnDeals(l) && s.entity == d;
  }

  lemma DealGivesRisk(f: Facts, a: Id, l: seq<Signal>, d: Id)
    requires l == ListOf(f, a)
    requires d in f.deals && f.deals[d].account == a && DealScore(f.deals[d], f.now, f.today) > 0
    ensures HasRisk(RisksOf(a, l), RiskKey(DealRisk, Opportunity, d))
  {
    DealIsScored(f, d);
    var s := PointsHaveSignal(l, d);
    DealSignalHasDeal(f, a, l, s);
    DealSignalGivesRisk(a, l, s);
  }

  lemma ContractGivesRisk(f: Facts, a: Id, c: ContractFacts)
    requires c in f.contracts && c.account == a && RenewalScore(c, f.today) > 0
    ensures HasRisk(RisksFor(f, a), RiskKey(RenewalRisk, Contract, c.id))
  {
    var s := ContractSignals(c, f.today)[0];
    ContractSignalIff(c, f.today, s);
    ListMember(f, a, s);
    ExpiringGivesRisk(a, ListOf(f, a), s);
  }

  // ----- Where the factors come from -----

  /** A factor stands for a signal of the account that holds now, or for a renewal that
      has not been started. */
  ghost predicate Grounded(f: Facts, a: Id, factor: Factor) {
    match factor.name
    case FromSignal(kind) => exists s :: Holds(f, s) && s.account == a && s.kind == kind && factor.points == PointsOf(s)
    case RenewalNotStarted =>
      factor.points == 15
      && exists s :: Holds(f, s) && s.account == a && s.kind == ContractExpiring && s.renewal == Some("NOT_STARTED")
  }

  lemma FactorsAreGrounded(f: Facts, a: Id, signals: seq<Signal>)
    requires forall s | s in signals :: s in ListOf(f, a)
    ensures forall factor | factor in Factors(signals) :: Grounded(f, a, factor)
  {
    forall factor | factor in Factors(signals)
      ensures Grounded(f, a, factor)
    {
      var i :| 0 <= i < |signals| && factor == FactorOf(signals[i]);
      assert signals[i] in signals;
      ListMember(f, a, signals[i]);
    }
  }

  lemma {:induction false} KindsAreListed(l: seq<Signal>, kind: SignalType)
    ensures forall s | s in OfKind(l, kind) :: s in l
  {
    forall s | s in OfKind(l, kind)
      ensures s in l
    {
      OfKindMember(l, kind, s);
    }
  }

  lemma RelationshipIsGrounded(f: Facts, a: Id)
    ensures forall factor | factor in RelationshipFactors(ListOf(f, a)) :: Grounded(f, a, factor)
  {
    var l := ListOf(f, a);
    KindsAreListed(l, NoContact);
    KindsAreListed(l, DecisionMakerMissing);
    KindsAreListed(l, EngagementIncrease);
    FactorsAreGrounded(f, a, OfKind(l, NoContact));
    FactorsAreGrounded(f, a, OfKind(l, DecisionMakerMissing));
    var engaged := OfKind(l, EngagementIncrease);
    if engaged != [] {
      FactorsAreGrounded(f, a, [engaged[0]]);
      assert Factors([engaged[0]]) == [FactorOf(engaged[0])];
    }
  }

  lemma RenewalIsGrounded(f: Facts, a: Id, s: Signal)
    requires s in ListOf(f, a) && s.kind == ContractExpiring
    ensures forall factor | factor in RenewalFactors(s) :: Grounded(f, a, factor)
  {
    ListMember(f, a, s);
  }

  lemma DealIsGrounded(f: Facts, a: Id, d: Id)
    ensures forall factor | factor in DealFactors(ListOf(f, a), d) :: Grounded(f, a, factor)
  {
    var l := ListOf(f, a);
    KindsAreListed(l, DealStalled);
    KindsAreListed(l, CloseDatePassed);
    var some := OnEntity(SignalsOnDeals(l), d);
    forall s | s in some
      ensures s in l
    {
      OnEntityMember(SignalsOnDeals(l), d, s);
    }
    FactorsAreGrounded(f, a, some);
  }

  lemma RiskIsGrounded(f: Facts, a: Id, r: Risk)
    requires r in RisksFor(f, a)
    ensures forall factor | factor in r.factors :: Grounded(f, a, factor)
  {
    var l := ListOf(f, a);
    RiskMember(a, l, r);
    match r.kind
    case RelationshipRisk =>
      ScoredIs(RelationshipRisk, Account, a, a, RelationshipFactors(l), r);
      RelationshipIsGrounded(f, a);
    case VocRisk =>
      ScoredIs(VocRisk, Account, a, a, Factors(OfKind(l, CriticalVoc)), r);
      KindsAreListed(l, CriticalVoc);
      FactorsAreGrounded(f, a, OfKind(l, CriticalVoc));
    case RenewalRisk =>
      var s :| s in l && s.kind == ContractExpiring && [r] == Scored(RenewalRisk, Contract, s.entity, a, RenewalFactors(s));
      ScoredIs(RenewalRisk, Contract, s.entity, a, RenewalFactors(s), r);
      RenewalIsGrounded(f, a, s);
    case DealRisk =>
      ScoredIs(DealRisk, Opportunity, r.entity, a, DealFactors(l, r.entity), r);
      DealIsGrounded(f, a, r.entity);
  }

  // ----- What the rows show after a pass -----

  /** A signal row shows the severity and the source of the signal that holds now. */
  ghost predicate ShowsSignal(row: Rec.Row<SignalValue>, s: Signal) {
    row.value.severity == s.severity && row.value.source == s.source && row.value.renewal == s.renewal
  }

  /** After a pass every signal that holds has a row that shows it as it is now, and
      each live row shows such a signal. */
  lemma SignalRowsAreCurrent(s: EngineState, t: EngineState, f: Facts)
    requires PassStep(s, t, f)
    ensures forall g: Signal | Holds(f, g) :: g.Key() in t.signals && ShowsSignal(t.signals[g.Key()], g)
    ensures forall k | k in t.signals && t.signals[k].status == Rec.Live ::
              exists g :: Holds(f, g) && g.Key() == k && ShowsSignal(t.signals[k], g)
  {
    Rec.ValuesAreCurrent(s.signals, t.signals, SignalItems(f));
    forall g: Signal | Holds(f, g)
      ensures g.Key() in t.signals && ShowsSignal(t.signals[g.Key()], g)
    {
      LiveSignalsHold(f, g);
      assert ItemOfSignal(g) in SignalItems(f);
    }
    forall k | k in t.signals && t.signals[k].status == Rec.Live
      ensures exists g :: Holds(f, g) && g.Key() == k && ShowsSignal(t.signals[k], g)
    {
      Rec.LiveRowsAreExact(s.signals, t.signals, SignalItems(f), k);
      var i :| i in SignalItems(f) && i.key == k;
      var g :| g in LiveSignals(f) && ItemOfSignal(g) == i;
      LiveSignalsHold(f, g);
    }
  }

  /** A risk row shows the score, the severity and the factors found now: the score is
      the one the facts give and the capped sum of the points stored beside it, and
      each of the factors stands for something that holds now. */
  ghost predicate ShowsRisk(f: Facts, row: Rec.Row<RiskValue>, r: Risk) {
    && row.value == RiskValue(r.score, r.severity, r.factors)
    && ByFacts(f, r)
    && row.value.score == AtMost100(Points(row.value.factors))
    && forall factor | factor in row.value.factors :: Grounded(f, r.account, factor)
  }

  lemma RiskShows(f: Facts, row: Rec.Row<RiskValue>, r: Risk)
    requires r in LiveRisks(f) && row.value == RiskValue(r.score, r.severity, r.factors)
    ensures ShowsRisk(f, row, r)
  {
    var a :| a in Touched(f) && r in RisksFor(f, a);
    RiskIsByFacts(f, a, r);
    RiskIsGrounded(f, a, r);
    ScoresAreExplained(a, ListOf(f, a), r);
  }

  lemma RiskRowsAreCurrent(s: EngineState, t: EngineState, f: Facts)
    requires PassStep(s, t, f)
    ensures forall r | r in LiveRisks(f) :: r.Key() in t.risks && ShowsRisk(f, t.risks[r.Key()], r)
    ensures forall k | k in t.risks && t.risks[k].status == Rec.Live ::
              exists r :: r in LiveRisks(f) && r.Key() == k && ShowsRisk(f, t.risks[k], r)
  {
    Rec.ValuesAreCurrent(s.risks, t.risks, RiskItems(f));
    forall r | r in LiveRisks(f)
      ensures r.Key() in t.risks && ShowsRisk(f, t.risks[r.Key()], r)
    {
      assert ItemOfRisk(r) in RiskItems(f);
      RiskShows(f, t.risks[r.Key()], r);
    }
    forall k | k in t.risks && t.risks[k].status == Rec.Live
      ensures exists r :: r in LiveRisks(f) && r.Key() == k && ShowsRisk(f, t.risks[k], r)
    {
      Rec.LiveRowsAreExact(s.risks, t.risks, RiskItems(f), k);
      var i :| i in RiskItems(f) && i.key == k;
      var r :| r in LiveRisks(f) && ItemOfRisk(r) == i;
      assert ItemOfRisk(r) in RiskItems(f);
      RiskShows(f, t.risks[k], r);
    }
  }
}

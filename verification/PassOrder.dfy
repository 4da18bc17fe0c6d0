/** Go ranges a map in no fixed order, so one pass may meet the deals of an account
    in any order. The risks it scores are the same for all of them. */
module PassOrder {
  import opened Wrappers
  import opened Ordering
  import opened SignalRules
  import opened RiskScoring

  lemma {:induction false} OfKindAppend(s: seq<Signal>, t: seq<Signal>, kind: SignalType)
    ensures OfKind(s + t, kind) == OfKind(s, kind) + OfKind(t, kind)
  {
    if t == [] {
      assert s + t == s;
    } else {
      var n := |t| - 1;
      OfKindAppend(s, t[..n], kind);
      assert (s + t)[..|s + t| - 1] == s + t[..n];
      var last := if t[n].kind == kind then [t[n]] else [];
      assert OfKind(s, kind) + OfKind(t[..n], kind) + last == OfKind(s, kind) + (OfKind(t[..n], kind) + last);
    }
  }

  lemma {:induction false} OnEntityAppend(s: seq<Signal>, t: seq<Signal>, entity: Id)
    ensures OnEntity(s + t, entity) == OnEntity(s, entity) + OnEntity(t, entity)
  {
    if t == [] {
      assert s + t == s;
    } else {
      var n := |t| - 1;
      OnEntityAppend(s, t[..n], entity);
      assert (s + t)[..|s + t| - 1] == s + t[..n];
      var last := if t[n].entity == entity then [t[n]] else [];
      assert OnEntity(s, entity) + OnEntity(t[..n], entity) + last == OnEntity(s, entity) + (OnEntity(t[..n], entity) + last);
    }
  }

  ghost predicate DealKind(kind: SignalType) {
    kind == DealStalled || kind == CloseDatePassed
  }

  lemma {:induction false} NoneOfKind(signals: seq<Signal>, kind: SignalType)
    requires forall s | s in signals :: s.kind != kind
    ensures OfKind(signals, kind) == []
  {
    if OfKind(signals, kind) != [] {
      OfKindMember(signals, kind, OfKind(signals, kind)[0]);
    }
  }

  lemma {:induction false} NoneOnEntity(signals: seq<Signal>, entity: Id)
    requires forall s | s in signals :: s.entity != entity
    ensures OnEntity(signals, entity) == []
  {
    if OnEntity(signals, entity) != [] {
      OnEntityMember(signals, entity, OnEntity(signals, entity)[0]);
    }
  }

  lemma {:induction false} DealsEmitDealKinds(f: Facts, order: seq<Id>, account: Id, s: Signal)
    requires s in DealSignalsIn(f, order, account)
    ensures DealKind(s.kind) && s.entity in order
  {
    DealSignalsMember(f, order, account, s);
    var d :| d in order && d in f.deals && s in DealSignals(d, f.deals[d], f.now, f.today);
    KindsOfDeal(d, f.deals[d], f.now, f.today, s);
  }

  ghost function Around(f: Facts, account: Id, kind: SignalType): (seq<Signal>, seq<Signal>) {
    (OfKind(AccountSignalsIn(f, account), kind), OfKind(ContractSignalsIn(f, f.contracts, account), kind))
  }

  lemma {:induction false} KindsSplit(f: Facts, order: seq<Id>, account: Id, kind: SignalType)
    ensures OfKind(SignalsOf(f, order, account), kind)
         == Around(f, account, kind).0 + OfKind(DealSignalsIn(f, order, account), kind) + Around(f, account, kind).1
  {
    OfKindAppend(AccountSignalsIn(f, account) + DealSignalsIn(f, order, account), ContractSignalsIn(f, f.contracts, account), kind);
    OfKindAppend(AccountSignalsIn(f, account), DealSignalsIn(f, order, account), kind);
  }

  /** Apart from the deal signals, the order cannot be seen in a list. */
  lemma {:induction false} OtherKindsIgnoreOrder(f: Facts, one: seq<Id>, two: seq<Id>, account: Id, kind: SignalType)
    requires !DealKind(kind)
    ensures OfKind(SignalsOf(f, one, account), kind) == OfKind(SignalsOf(f, two, account), kind)
  {
    KindsSplit(f, one, account, kind);
    KindsSplit(f, two, account, kind);
    forall s | s in DealSignalsIn(f, one, account) { DealsEmitDealKinds(f, one, account, s); }
    forall s | s in DealSignalsIn(f, two, account) { DealsEmitDealKinds(f, two, account, s); }
    NoneOfKind(DealSignalsIn(f, one, account), kind);
    NoneOfKind(DealSignalsIn(f, two, account), kind);
  }

  ghost function OwnSignals(f: Facts, account: Id, deal: Id, kind: SignalType): seq<Signal> {
    if deal in f.deals && f.deals[deal].account == account
    then OfKind(DealSignals(deal, f.deals[deal], f.now, f.today), kind) else []
  }

  /** What the visits to one deal add up to when each adds own. */
  function Visits(order: seq<Id>, deal: Id, own: seq<Signal>): seq<Signal> {
    if order == [] then []
    else Visits(order[..|order| - 1], deal, own) + if order[|order| - 1] == deal then own else []
  }

  lemma {:induction false} VisitedOnce(order: seq<Id>, deal: Id, own: seq<Signal>)
    requires forall i, j | 0 <= i < j < |order| :: order[i] != order[j]
    ensures Visits(order, deal, own) == if deal in order then own else []
  {
    if order != [] {
      VisitedOnce(order[..|order| - 1], deal, own);
      LastAlone(order);
      NoneAdds(own);
    }
  }

  lemma {:induction false} OneDealIsItsVisits(f: Facts, order: seq<Id>, account: Id, deal: Id, kind: SignalType)
    ensures OnEntity(OfKind(DealSignalsIn(f, order, account), kind), deal)
         == Visits(order, deal, OwnSignals(f, account, deal, kind))
  {
    if order != [] {
      OneDealIsItsVisits(f, order[..|order| - 1], account, deal, kind);
      VisitsAppend(f, order, account, deal, kind);
      LastVisit(f, account, order[|order| - 1], deal, kind);
    }
  }

  /** The signals on one deal all come from the one visit to that deal. */
  lemma {:induction false} OneDealIgnoresOrder(f: Facts, order: seq<Id>, account: Id, deal: Id, kind: SignalType)
    requires forall i, j | 0 <= i < j < |order| :: order[i] != order[j]
    ensures OnEntity(OfKind(DealSignalsIn(f, order, account), kind), deal)
         == if deal in order then OwnSignals(f, account, deal, kind) else []
  {
    OneDealIsItsVisits(f, order, account, deal, kind);
    VisitedOnce(order, deal, OwnSignals(f, account, deal, kind));
  }

  lemma NoneAdds(signals: seq<Signal>)
    ensures signals + [] == signals && [] + signals == signals
  {
  }

  lemma LastAlone(order: seq<Id>)
    requires order != [] && forall i, j | 0 <= i < j < |order| :: order[i] != order[j]
    ensures var n := |order| - 1;
            order[n] !in order[..n] && forall id :: id in order <==> id in order[..n] || id == order[n]
  {
  }

  /** What the loop over the deals adds for one of them. */
  function VisitSignals(f: Facts, account: Id, visited: Id): seq<Signal> {
    if visited in f.deals && f.deals[visited].account == account
    then DealSignals(visited, f.deals[visited], f.now, f.today) else []
  }

  lemma VisitsAppend(f: Facts, order: seq<Id>, account: Id, deal: Id, kind: SignalType)
    requires order != []
    ensures var n := |order| - 1;
            OnEntity(OfKind(DealSignalsIn(f, order, account), kind), deal)
            == OnEntity(OfKind(DealSignalsIn(f, order[..n], account), kind), deal)
               + OnEntity(OfKind(VisitSignals(f, account, order[n]), kind), deal)
  {
    var before, last := DealSignalsIn(f, order[..|order| - 1], account), VisitSignals(f, account, order[|order| - 1]);
    assert DealSignalsIn(f, order, account) == before + last;
    OfKindAppend(before, last, kind);
    OnEntityAppend(OfKind(before, kind), OfKind(last, kind), deal);
  }

  lemma {:induction false} LastVisit(f: Facts, account: Id, visited: Id, deal: Id, kind: SignalType)
    ensures OnEntity(OfKind(VisitSignals(f, account, visited), kind), deal)
         == if visited == deal then OwnSignals(f, account, deal, kind) else []
  {
    if visited in f.deals && f.deals[visited].account == account {
      var last := OfKind(DealSignals(visited, f.deals[visited], f.now, f.today), kind);
      forall s | s in last
        ensures s.entity == visited
      {
        OfKindMember(DealSignals(visited, f.deals[visited], f.now, f.today), kind, s);
        KindsOfDeal(visited, f.deals[visited], f.now, f.today, s);
      }
      if visited == deal {
        AllOnEntity(last, deal);
      } else {
        NoneOnEntity(last, deal);
      }
    }
  }

  lemma {:induction false} AllOnEntity(signals: seq<Signal>, entity: Id)
    requires forall s | s in signals :: s.entity == entity
    ensures OnEntity(signals, entity) == signals
  {
    if signals != [] {
      var n := |signals| - 1;
      assert signals == signals[..n] + [signals[n]];
      AllOnEntity(signals[..n], entity);
    }
  }

  lemma NoDealKindsAround(f: Facts, account: Id, kind: SignalType)
    requires DealKind(kind)
    ensures Around(f, account, kind) == ([], [])
  {
    forall s | s in AccountSignalsIn(f, account)
      ensures s.kind != kind
    {
      KindsOfAccount(account, f.accounts[account], f.now, s);
    }
    forall s | s in ContractSignalsIn(f, f.contracts, account)
      ensures s.kind != kind
    {
      ContractSignalsMember(f, f.contracts, account, s);
      var c :| c in f.contracts && s in ContractSignals(c, f.today);
    }
    NoneOfKind(AccountSignalsIn(f, account), kind);
    NoneOfKind(ContractSignalsIn(f, f.contracts, account), kind);
  }

  lemma {:induction false} DealKindIgnoresOrder(f: Facts, order: seq<Id>, account: Id, deal: Id, kind: SignalType)
    requires DealKind(kind) && Enumerates(order, f.deals.Keys)
    ensures OnEntity(OfKind(SignalsOf(f, order, account), kind), deal) == OwnSignals(f, account, deal, kind)
  {
    KindsSplit(f, order, account, kind);
    NoDealKindsAround(f, account, kind);
    var found := OfKind(DealSignalsIn(f, order, account), kind);
    assert [] + found + [] == found;
    OneDealIgnoresOrder(f, order, account, deal, kind);
  }

  lemma DealFactorsIgnoreOrder(f: Facts, one: seq<Id>, two: seq<Id>, account: Id, deal: Id)
    requires Enumerates(one, f.deals.Keys) && Enumerates(two, f.deals.Keys)
    ensures DealFactors(SignalsOf(f, one, account), deal) == DealFactors(SignalsOf(f, two, account), deal)
  {
    var s, t := SignalsOf(f, one, account), SignalsOf(f, two, account);
    OnEntityAppend(OfKind(s, DealStalled), OfKind(s, CloseDatePassed), deal);
    OnEntityAppend(OfKind(t, DealStalled), OfKind(t, CloseDatePassed), deal);
    DealKindIgnoresOrder(f, one, account, deal, DealStalled);
    DealKindIgnoresOrder(f, one, account, deal, CloseDatePassed);
    DealKindIgnoresOrder(f, two, account, deal, DealStalled);
    DealKindIgnoresOrder(f, two, account, deal, CloseDatePassed);
  }

  lemma DealsIgnoreOrder(f: Facts, one: seq<Id>, two: seq<Id>, account: Id)
    requires Enumerates(one, f.deals.Keys) && Enumerates(two, f.deals.Keys)
    ensures EntitiesOf(SignalsOnDeals(SignalsOf(f, one, account))) == EntitiesOf(SignalsOnDeals(SignalsOf(f, two, account)))
  {
    var s, t := SignalsOf(f, one, account), SignalsOf(f, two, account);
    forall deal
      ensures deal in EntitiesOf(SignalsOnDeals(s)) <==> deal in EntitiesOf(SignalsOnDeals(t))
    {
      DealFactorsIgnoreOrder(f, one, two, account, deal);
      EntitiesMember(SignalsOnDeals(s), deal);
      EntitiesMember(SignalsOnDeals(t), deal);
      DealPoints(s, deal);
      DealPoints(t, deal);
    }
  }

  lemma {:induction false} SameDealRisks(account: Id, s: seq<Signal>, t: seq<Signal>, deals: seq<Id>)
    requires forall d :: DealFactors(s, d) == DealFactors(t, d)
    ensures DealRisks(account, s, deals) == DealRisks(account, t, deals)
  {
    if deals != [] {
      SameDealRisks(account, s, t, deals[..|deals| - 1]);
    }
  }

  /** The risks of an account are a function of the facts alone. */
  lemma RisksIgnoreOrder(f: Facts, one: seq<Id>, two: seq<Id>, account: Id)
    requires Enumerates(one, f.deals.Keys) && Enumerates(two, f.deals.Keys)
    ensures RisksOf(account, SignalsOf(f, one, account)) == RisksOf(account, SignalsOf(f, two, account))
  {
    var s, t := SignalsOf(f, one, account), SignalsOf(f, two, account);
    OtherKindsIgnoreOrder(f, one, two, account, NoContact);
    OtherKindsIgnoreOrder(f, one, two, account, DecisionMakerMissing);
    OtherKindsIgnoreOrder(f, one, two, account, EngagementIncrease);
    OtherKindsIgnoreOrder(f, one, two, account, CriticalVoc);
    OtherKindsIgnoreOrder(f, one, two, account, ContractExpiring);
    DealsIgnoreOrder(f, one, two, account);
    forall d
      ensures DealFactors(s, d) == DealFactors(t, d)
    {
      DealFactorsIgnoreOrder(f, one, two, account, d);
    }
    SameDealRisks(account, s, t, Sorted(EntitiesOf(SignalsOnDeals(s))));
  }
}

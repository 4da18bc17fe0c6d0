/** The signals of a pass, said in terms of the facts alone: which hold, how severe
    they are and what they are about. */
module SignalFacts {
  import opened Wrappers
  import opened SignalRules

  /** At least this many days lie between the two instants. */
  predicate DaysPassed(since: int, now: int, days: int) {
    now - since >= days * DAY
  }

  lemma WholeDaysReach(seconds: int, days: int)
    requires days > 0
    ensures WholeDays(seconds) >= days <==> seconds >= days * DAY
  {
  }

  /** An account's signals: no contact for 30 days, nobody to talk to or nobody who
      decides, a critical request, growing engagement, a recent quote. */
  predicate OnAccount(id: Id, a: AccountFacts, now: int, s: Signal) {
    && s.account == id && s.renewal == None
    && (s.kind != CriticalVoc ==> s.entityType == Account && s.entity == id)
    && (s.kind != CriticalVoc && s.kind != QuoteRequested ==> s.source == id)
    && match s.kind
       case NoContact =>
         && (a.lastContact.None? || DaysPassed(a.lastContact.value, now, 30))
         && s.severity == if a.lastContact.None? || DaysPassed(a.lastContact.value, now, 60) then High else Medium
       case DecisionMakerMissing =>
         if a.contacts == 0 then s.severity == High else a.decisionMakers == 0 && s.severity == Medium
       case CriticalVoc =>
         && a.criticalVoices > 0 && s.severity == Critical
         && s.entityType == Voc && s.entity == a.criticalVoice && s.source == a.criticalVoice
       case EngagementIncrease => a.recentTouches >= 3 && a.recentTouches > a.priorTouches && s.severity == Low
       case QuoteRequested => a.recentQuote != "" && s.source == a.recentQuote && s.severity == Low
       case _ => false
  }

  /** A deal's signals, while it is open: 30 days in its stage, a close date gone by. */
  predicate OnDeal(id: Id, d: DealFacts, now: int, today: int, s: Signal) {
    && d.open && s.account == d.account && s.renewal == None
    && s.entityType == Opportunity && s.entity == id && s.source == id
    && match s.kind
       case DealStalled =>
         && DaysPassed(d.stageEntered, now, 30)
         && s.severity == if DaysPassed(d.stageEntered, now, 60) then High else Medium
       case CloseDatePassed => d.closeDate.Some? && d.closeDate.value < today && s.severity == High
       case _ => false
  }

  /** A contract's signal, in the last 90 days before its end. */
  predicate OnContract(c: ContractFacts, today: int, s: Signal) {
    var left := c.endDate - today;
    && s.kind == ContractExpiring && 0 <= left <= 90
    && s.account == c.account && s.renewal == Some(c.renewal)
    && s.entityType == Contract && s.entity == c.id && s.source == c.id
    && s.severity == if left <= 14 && c.renewal == "NOT_STARTED" && !c.autoRenew then Critical
                     else if left <= 30 then High else Medium
  }

  lemma AccountSignalIff(id: Id, a: AccountFacts, now: int, s: Signal)
    ensures s in AccountSignals(id, a, now) <==> OnAccount(id, a, now, s)
  {
    if a.lastContact.Some? {
      WholeDaysReach(now - a.lastContact.value, 30);
      WholeDaysReach(now - a.lastContact.value, 60);
    }
    InAppend(NoContactSignal(id, a, now) + DecisionMakerSignal(id, a) + VoiceSignal(id, a), PositiveSignals(id, a), s);
    InAppend(NoContactSignal(id, a, now) + DecisionMakerSignal(id, a), VoiceSignal(id, a), s);
    InAppend(NoContactSignal(id, a, now), DecisionMakerSignal(id, a), s);
    PartsIff(id, a, now, s);
  }

  /** Each part of the list holds the signals of its kinds. */
  lemma PartsIff(id: Id, a: AccountFacts, now: int, s: Signal)
    requires a.lastContact.Some? ==>
               && (WholeDays(now - a.lastContact.value) >= 30 <==> now - a.lastContact.value >= 30 * DAY)
               && (WholeDays(now - a.lastContact.value) >= 60 <==> now - a.lastContact.value >= 60 * DAY)
    ensures s in NoContactSignal(id, a, now) <==> s.kind == NoContact && OnAccount(id, a, now, s)
    ensures s in DecisionMakerSignal(id, a) <==> s.kind == DecisionMakerMissing && OnAccount(id, a, now, s)
    ensures s in VoiceSignal(id, a) <==> s.kind == CriticalVoc && OnAccount(id, a, now, s)
    ensures s in PositiveSignals(id, a)
       <==> (s.kind == EngagementIncrease || s.kind == QuoteRequested) && OnAccount(id, a, now, s)
  {
  }

  lemma DealSignalIff(id: Id, d: DealFacts, now: int, today: int, s: Signal)
    ensures s in DealSignals(id, d, now, today) <==> OnDeal(id, d, now, today, s)
  {
    WholeDaysReach(now - d.stageEntered, 30);
    WholeDaysReach(now - d.stageEntered, 60);
  }

  lemma ContractSignalIff(c: ContractFacts, today: int, s: Signal)
    ensures s in ContractSignals(c, today) <==> OnContract(c, today, s)
  {
  }

  /** The signals that hold are these and no others. */
  lemma HoldsIff(f: Facts, s: Signal)
    ensures Holds(f, s)
       <==> || (exists a :: a in f.accounts && OnAccount(a, f.accounts[a], f.now, s))
            || (exists d :: d in f.deals && OnDeal(d, f.deals[d], f.now, f.today, s))
            || (exists c :: c in f.contracts && OnContract(c, f.today, s))
  {
    forall a | a in f.accounts
      ensures s in AccountSignals(a, f.accounts[a], f.now) <==> OnAccount(a, f.accounts[a], f.now, s)
    {
      AccountSignalIff(a, f.accounts[a], f.now, s);
    }
    forall d | d in f.deals
      ensures s in DealSignals(d, f.deals[d], f.now, f.today) <==> OnDeal(d, f.deals[d], f.now, f.today, s)
    {
      DealSignalIff(d, f.deals[d], f.now, f.today, s);
    }
    forall c | c in f.contracts
      ensures s in ContractSignals(c, f.today) <==> OnContract(c, f.today, s)
    {
      ContractSignalIff(c, f.today, s);
    }
  }
}

/** Scoring deals, one at a time and as a batch that shares its reads. */
module DealHealth {
  import opened Wrappers
  import opened HealthRules

  datatype RiskLevel = Healthy | Watch | Risk | Critical

  datatype Factor = Factor(code: string, riskScore: int, evidence: Evidence, recommendedAction: string)

  datatype Health = Health(
    dealId: string, customerId: string, riskScore: int, healthScore: int, level: RiskLevel,
    factors: seq<Factor>, recommendations: seq<string>, calculatedAt: Instant)

  function FactorOf(rule: Rule, facts: Facts): Factor {
    Factor(rule.code, rule.riskScore, Evaluate(rule, facts).1, rule.recommendedAction)
  }

  /** The factors of the rules that fire, in the order of the rules. */
  function FactorsOf(rules: seq<Rule>, facts: Facts): seq<Factor> {
    if rules == [] then []
    else
      var n := |rules| - 1;
      FactorsOf(rules[..n], facts) + if Evaluate(rules[n], facts).0 then [FactorOf(rules[n], facts)] else []
  }

  function PointsOf(factors: seq<Factor>): int {
    if factors == [] then 0
    else
      var n := |factors| - 1;
      PointsOf(factors[..n]) + factors[n].riskScore
  }

  /** The actions of the factors, each at its first appearance. */
  function ActionsOf(factors: seq<Factor>): seq<string> {
    if factors == [] then []
    else
      var n := |factors| - 1;
      var before, action := ActionsOf(factors[..n]), factors[n].recommendedAction;
      if action in before then before else before + [action]
  }

  function LevelOf(risk: int): RiskLevel {
    if risk >= 70 then Critical else if risk >= 40 then Risk else if risk >= 20 then Watch else Healthy
  }

  function Capped(points: int): int {
    if points > 100 then 100 else points
  }

  function HealthOf(rules: seq<Rule>, facts: Facts): Health {
    var deal, factors := facts.deal, if facts.deal.isOpen then FactorsOf(rules, facts) else [];
    var risk := Capped(PointsOf(factors));
    Health(deal.id, deal.customerId, risk, 100 - risk, LevelOf(risk), factors, ActionsOf(factors), facts.now)
  }

  lemma {:induction false} FactorsGrow(rules: seq<Rule>, i: nat, facts: Facts)
    requires i < |rules|
    ensures FactorsOf(rules[..i + 1], facts)
         == FactorsOf(rules[..i], facts) + if Evaluate(rules[i], facts).0 then [FactorOf(rules[i], facts)] else []
  {
    assert rules[..i + 1][..i] == rules[..i];
  }

  lemma {:induction false} AddFactor(factors: seq<Factor>, factor: Factor)
    ensures PointsOf(factors + [factor]) == PointsOf(factors) + factor.riskScore
    ensures ActionsOf(factors + [factor]) == ActionsOf(factors)
              + if factor.recommendedAction in ActionsOf(factors) then [] else [factor.recommendedAction]
  {
  }

  /** scoreDealHealth: the loop over the rules, with the set of actions seen. */
  method ScoreDealHealth(rules: seq<Rule>, facts: Facts) returns (result: Health)
    ensures result == HealthOf(rules, facts)
  {
    var deal, risk, factors, actions := facts.deal, 0, [], [];
    if !deal.isOpen {
      return Health(deal.id, deal.customerId, 0, 100, Healthy, [], [], facts.now);
    }
    var seen: set<string> := {};
    for i := 0 to |rules|
      invariant factors == FactorsOf(rules[..i], facts)
      invariant risk == PointsOf(factors) && actions == ActionsOf(factors)
      invariant forall action :: action in seen <==> action in actions
    {
      FactorsGrow(rules, i, facts);
      var fired, evidence := EvaluateHealthRule(rules[i], facts);
      if fired {
        var factor := Factor(rules[i].code, rules[i].riskScore, evidence, rules[i].recommendedAction);
        AddFactor(factors, factor);
        risk, factors := risk + rules[i].riskScore, factors + [factor];
        if rules[i].recommendedAction !in seen {
          seen := seen + {rules[i].recommendedAction};
          actions := actions + [rules[i].recommendedAction];
        }
      }
    }
    assert rules[..|rules|] == rules;
    if risk > 100 {
      risk := 100;
    }
    var level := Healthy;
    if risk >= 70 {
      level := Critical;
    } else if risk >= 40 {
      level := Risk;
    } else if risk >= 20 {
      level := Watch;
    }
    result := Health(deal.id, deal.customerId, risk, 100 - risk, level, factors, actions, facts.now);
  }

  ghost predicate Distinct<T(!new)>(s: seq<T>) {
    forall i, j | 0 <= i < j < |s| :: s[i] != s[j]
  }

  /** Each recommended action is listed once, and it is the action of a factor. */
  lemma {:induction false} ActionsAreDistinct(factors: seq<Factor>)
    ensures Distinct(ActionsOf(factors))
    ensures forall action :: action in ActionsOf(factors) <==> exists f :: f in factors && f.recommendedAction == action
  {
    if factors != [] {
      var n := |factors| - 1;
      ActionsAreDistinct(factors[..n]);
      assert factors == factors[..n] + [factors[n]];
      assert forall f :: f in factors <==> f in factors[..n] || f == factors[n];
      forall action
        ensures action in ActionsOf(factors) <==> action in ActionsOf(factors[..n]) || action == factors[n].recommendedAction
      {
      }
    }
  }

  lemma {:induction false} FactorsAreRules(rules: seq<Rule>, facts: Facts, factor: Factor)
    ensures factor in FactorsOf(rules, facts)
       <==> exists i :: 0 <= i < |rules| && Evaluate(rules[i], facts).0 && factor == FactorOf(rules[i], facts)
  {
    if rules != [] {
      var n := |rules| - 1;
      FactorsAreRules(rules[..n], facts, factor);
      if i :| 0 <= i < |rules| && Evaluate(rules[i], facts).0 && factor == FactorOf(rules[i], facts) {
        assert i < n ==> rules[..n][i] == rules[i];
      }
      if i :| 0 <= i < n && Evaluate(rules[..n][i], facts).0 && factor == FactorOf(rules[..n][i], facts) {
        assert rules[i] == rules[..n][i];
      }
    }
  }

  lemma {:induction false} PointsAreInRange(rules: seq<Rule>, facts: Facts)
    requires forall i | 0 <= i < |rules| :: rules[i].riskScore >= 0
    ensures PointsOf(FactorsOf(rules, facts)) >= 0
  {
    if rules != [] {
      var n := |rules| - 1;
      assert forall i | 0 <= i < n :: rules[..n][i] == rules[i];
      PointsAreInRange(rules[..n], facts);
      FactorsGrow(rules, n, facts);
      assert rules[..n + 1] == rules;
      var before := FactorsOf(rules[..n], facts);
      AddFactor(before, FactorOf(rules[n], facts));
      assert before + [] == before;
    }
  }

  /** The scores of the rules that fire, added up. */
  function FiredPoints(rules: seq<Rule>, facts: Facts): int {
    if rules == [] then 0 else (if Evaluate(rules[0], facts).0 then rules[0].riskScore else 0) + FiredPoints(rules[1..], facts)
  }

  lemma {:induction false} FiredPointsAppend(rules: seq<Rule>, rule: Rule, facts: Facts)
    ensures FiredPoints(rules + [rule], facts)
         == FiredPoints(rules, facts) + if Evaluate(rule, facts).0 then rule.riskScore else 0
  {
    if rules == [] {
      assert rules + [rule] == [rule] && [rule][1..] == [];
    } else {
      FiredPointsAppend(rules[1..], rule, facts);
      assert (rules + [rule])[1..] == rules[1..] + [rule];
    }
  }

  lemma {:induction false} PointsOfNext(factors: seq<Factor>, factor: Factor)
    ensures PointsOf(factors + [factor]) == PointsOf(factors) + factor.riskScore && factors + [] == factors
  {
    assert (factors + [factor])[..|factors|] == factors;
  }

  lemma {:induction false} PointsAreOfFiredRules(rules: seq<Rule>, facts: Facts)
    ensures PointsOf(FactorsOf(rules, facts)) == FiredPoints(rules, facts)
  {
    if rules != [] {
      var n := |rules| - 1;
      PointsAreOfFiredRules(rules[..n], facts);
      assert rules == rules[..n] + [rules[n]];
      FiredPointsAppend(rules[..n], rules[n], facts);
      PointsOfNext(FactorsOf(rules[..n], facts), FactorOf(rules[n], facts));
    }
  }

  /** A factor shows its rule and the evidence. */
  lemma FactorShowsRule(rule: Rule, facts: Facts)
    ensures var factor := FactorOf(rule, facts);
            && factor.code == rule.code && factor.riskScore == rule.riskScore
            && factor.recommendedAction == rule.recommendedAction && factor.evidence == Evaluate(rule, facts).1
  {
  }

  /** A deal that is not open has nothing against it. */
  lemma ClosedDealIsHealthy(rules: seq<Rule>, facts: Facts)
    requires !facts.deal.isOpen
    ensures HealthOf(rules, facts) == Health(facts.deal.id, facts.deal.customerId, 0, 100, Healthy, [], [], facts.now)
  {
  }

  /** A verdict explains itself: an open deal's factors are exactly the rules that
      fire, its actions are theirs without repetition, and with the scores the
      rule editor admits both scores lie in 0..100. */
  lemma {:induction false} VerdictIsExplained(rules: seq<Rule>, facts: Facts)
    requires facts.deal.isOpen && forall i | 0 <= i < |rules| :: 0 <= rules[i].riskScore <= 100
    ensures var health := HealthOf(rules, facts);
            && 0 <= health.riskScore <= 100 && health.healthScore == 100 - health.riskScore
            && (PointsOf(health.factors) <= 100 ==> health.riskScore == PointsOf(health.factors))
            && (PointsOf(health.factors) >= 100 ==> health.riskScore == 100)
            && (health.level == Critical <==> 70 <= health.riskScore)
            && (health.level == Risk <==> 40 <= health.riskScore < 70)
            && (health.level == Watch <==> 20 <= health.riskScore < 40)
            && (forall factor :: factor in health.factors
                  <==> exists i :: 0 <= i < |rules| && Evaluate(rules[i], facts).0 && factor == FactorOf(rules[i], facts))
            && PointsOf(health.factors) == FiredPoints(rules, facts)
            && Distinct(health.recommendations)
            && (forall action :: action in health.recommendations
                  <==> exists f :: f in health.factors && f.recommendedAction == action)
  {
    PointsAreInRange(rules, facts);
    PointsAreOfFiredRules(rules, facts);
    ActionsAreDistinct(FactorsOf(rules, facts));
    forall factor
      ensures factor in FactorsOf(rules, facts)
         <==> exists i :: 0 <= i < |rules| && Evaluate(rules[i], facts).0 && factor == FactorOf(rules[i], facts)
    {
      FactorsAreRules(rules, facts, factor);
    }
  }

  lemma {:induction false} SameVerdictsSameFactors(rules: seq<Rule>, facts: Facts, other: Facts)
    requires forall i | 0 <= i < |rules| :: Evaluate(rules[i], other) == Evaluate(rules[i], facts)
    ensures FactorsOf(rules, other) == FactorsOf(rules, facts)
  {
    if rules != [] {
      var n := |rules| - 1;
      assert forall i | 0 <= i < n :: rules[..n][i] == rules[i];
      assert Evaluate(rules[n], other) == Evaluate(rules[n], facts);
      SameVerdictsSameFactors(rules[..n], facts, other);
    }
  }

  /** The whole verdict is the same on the truncated history as on the full one. */
  lemma TruncatedHistorySameHealth(rules: seq<Rule>, facts: Facts)
    ensures HealthOf(rules, facts.(history := ReadSince(facts.history, SinceOf(rules, facts.now)))) == HealthOf(rules, facts)
  {
    var other := facts.(history := ReadSince(facts.history, SinceOf(rules, facts.now)));
    forall i | 0 <= i < |rules|
      ensures Evaluate(rules[i], other) == Evaluate(rules[i], facts)
    {
      TruncatedHistoryIsEnough(rules, i, facts);
    }
    SameVerdictsSameFactors(rules, facts, other);
  }

  // ----- Batches -----

  datatype Roles = Roles(decisionMakers: nat, champions: nat)

  /** The tables a batch reads: a customer without contacts and a deal without
      changes have no entry. Their keys are ids, never blank. */
  datatype Tables = Tables(
    rules: seq<Rule>, contacts: map<string, Roles>, stages: map<string, Option<int>>, history: map<string, seq<Change>>)

  predicate KeysAreIds(db: Tables) {
    "" !in db.contacts && "" !in db.stages && "" !in db.history
  }

  function RolesAt(contacts: map<string, Roles>, id: string): Roles {
    if id in contacts then contacts[id] else Roles(0, 0)
  }

  function LimitAt(stages: map<string, Option<int>>, id: string): Option<int> {
    if id in stages then stages[id] else None
  }

  function ChangesAt(history: map<string, seq<Change>>, id: string): seq<Change> {
    if id in history then history[id] else []
  }

  function FactsOf(db: Tables, deal: Deal, now: Instant, today: Date): Facts {
    var roles := RolesAt(db.contacts, deal.customerId);
    Facts(deal, ChangesAt(db.history, deal.id), roles.decisionMakers, roles.champions, LimitAt(db.stages, deal.stageId), now, today)
  }

  /** The facts of a deal are what is stored under its customer, its stage and itself. */
  lemma FactsAreStored(db: Tables, deal: Deal, now: Instant, today: Date)
    ensures var facts := FactsOf(db, deal, now, today);
            && facts.deal == deal && facts.now == now && facts.today == today
            && (deal.customerId in db.contacts ==>
                  && facts.decisionMakers == db.contacts[deal.customerId].decisionMakers
                  && facts.champions == db.contacts[deal.customerId].champions)
            && (deal.customerId !in db.contacts ==> facts.decisionMakers == 0 && facts.champions == 0)
            && facts.stageMaxDays == (if deal.stageId in db.stages then db.stages[deal.stageId] else None)
            && facts.history == (if deal.id in db.history then db.history[deal.id] else [])
  {
  }

  /** The verdict on one deal by itself, from everything stored about it. */
  function Alone(db: Tables, deal: Deal, now: Instant, today: Date): Health {
    HealthOf(db.rules, FactsOf(db, deal, now, today))
  }

  datatype Read = RulesRead | ContactsRead | StagesRead | HistoryRead

  type Failures = set<Read>

  method ContactRoles(db: Tables, customerIds: seq<string>, failing: Failures)
        returns (r: Result<map<string, Roles>, Read>)
    ensures r.Err? <==> customerIds != [] && ContactsRead in failing
    ensures r.Ok? ==> forall id :: id in customerIds ==> RolesAt(r.value, id) == RolesAt(db.contacts, id)
    ensures r.Ok? ==> r.value.Keys <= db.contacts.Keys
  {
    if customerIds == [] {
      return Ok(map[]);
    }
    if ContactsRead in failing {
      return Err(ContactsRead);
    }
    return Ok(map id | id in db.contacts && id in customerIds :: db.contacts[id]);
  }

  method StageLimits(db: Tables, stageIds: seq<string>, failing: Failures)
        returns (r: Result<map<string, Option<int>>, Read>)
    ensures r.Err? <==> stageIds != [] && StagesRead in failing
    ensures r.Ok? ==> forall id :: id in stageIds ==> LimitAt(r.value, id) == LimitAt(db.stages, id)
    ensures r.Ok? ==> r.value.Keys <= db.stages.Keys
  {
    if stageIds == [] {
      return Ok(map[]);
    }
    if StagesRead in failing {
      return Err(StagesRead);
    }
    return Ok(map id | id in db.stages && id in stageIds :: db.stages[id]);
  }

  method ChangesFor(db: Tables, dealIds: seq<string>, since: Instant, failing: Failures)
    returns (r: Result<map<string, seq<Change>>, Read>)
    ensures r.Err? <==> dealIds != [] && HistoryRead in failing
    ensures r.Ok? ==> forall id :: id in dealIds ==> ChangesAt(r.value, id) == ReadSince(ChangesAt(db.history, id), since)
    ensures r.Ok? ==> r.value.Keys <= db.history.Keys
  {
    if dealIds == [] {
      return Ok(map[]);
    }
    if HistoryRead in failing {
      return Err(HistoryRead);
    }
    return Ok(map id | id in db.history && id in dealIds :: ReadSince(db.history[id], since));
  }

  /** The ids the batched reads need: every customer, stage and deal named, the
      customers and stages once each. */
  method HealthInputs(deals: seq<Deal>) returns (customerIds: seq<string>, stageIds: seq<string>, dealIds: seq<string>)
    ensures Distinct(customerIds) && Distinct(stageIds)
    ensures forall id :: id in customerIds <==> id != "" && exists k :: 0 <= k < |deals| && deals[k].customerId == id
    ensures forall id :: id in stageIds <==> id != "" && exists k :: 0 <= k < |deals| && deals[k].stageId == id
    ensures forall id :: id in dealIds <==> id != "" && exists k :: 0 <= k < |deals| && deals[k].id == id
  {
    customerIds, stageIds, dealIds := [], [], [];
    var seenCustomer: set<string>, seenStage: set<string> := {}, {};
    for i := 0 to |deals|
      invariant Distinct(customerIds) && Distinct(stageIds)
      invariant forall id :: id in seenCustomer <==> id in customerIds
      invariant forall id :: id in seenStage <==> id in stageIds
      invariant forall id :: id in customerIds <==> id != "" && exists k :: 0 <= k < i && deals[k].customerId == id
      invariant forall id :: id in stageIds <==> id != "" && exists k :: 0 <= k < i && deals[k].stageId == id
      invariant forall id :: id in dealIds <==> id != "" && exists k :: 0 <= k < i && deals[k].id == id
    {
      var deal := deals[i];
      if deal.customerId != "" && deal.customerId !in seenCustomer {
        seenCustomer := seenCustomer + {deal.customerId};
        customerIds := customerIds + [deal.customerId];
      }
      if deal.stageId != "" && deal.stageId !in seenStage {
        seenStage := seenStage + {deal.stageId};
        stageIds := stageIds + [deal.stageId];
      }
      if deal.id != "" {
        dealIds := dealIds + [deal.id];
      }
    }
  }

  /** The reads a verdict on one deal needs; only an open deal is judged by rules. */
  predicate Needs(deal: Deal, read: Read) {
    deal.isOpen && match read
      case RulesRead => true
      case ContactsRead => deal.customerId != ""
      case StagesRead => deal.stageId != ""
      case HistoryRead => deal.id != ""
  }

  /** Two stores that agree on what the deal needs read. */
  ghost predicate ReadsAlike(db: Tables, other: Tables, deal: Deal) {
    && (Needs(deal, RulesRead) ==> db.rules == other.rules)
    && (Needs(deal, ContactsRead) ==> db.contacts == other.contacts)
    && (Needs(deal, StagesRead) ==> db.stages == other.stages)
    && (Needs(deal, HistoryRead) ==> db.history == other.history)
  }

  /** What a deal does not need read makes no difference to its verdict. */
  lemma VerdictNeedsNoMore(db: Tables, other: Tables, deal: Deal, now: Instant, today: Date)
    requires KeysAreIds(db) && KeysAreIds(other) && ReadsAlike(db, other, deal)
    ensures Alone(db, deal, now, today) == Alone(other, deal, now, today)
  {
    if deal.isOpen {
      assert FactsOf(db, deal, now, today) == FactsOf(other, deal, now, today);
    }
  }

  ghost predicate NeedsRead(deals: seq<Deal>, read: Read) {
    exists k :: 0 <= k < |deals| && Needs(deals[k], read)
  }

  /** What one round of reads brings back. */
  datatype Shared = Shared(contacts: map<string, Roles>, stages: map<string, Option<int>>, history: map<string, seq<Change>>)

  ghost predicate Covers(shared: Shared, db: Tables, deal: Deal, now: Instant) {
    && RolesAt(shared.contacts, deal.customerId) == RolesAt(db.contacts, deal.customerId)
    && LimitAt(shared.stages, deal.stageId) == LimitAt(db.stages, deal.stageId)
    && ChangesAt(shared.history, deal.id) == ReadSince(ChangesAt(db.history, deal.id), SinceOf(db.rules, now))
  }

  /** The reads a list of open deals shares. */
  method ReadShared(db: Tables, scoring: seq<Deal>, now: Instant, failing: Failures) returns (r: Result<Shared, Read>)
    requires KeysAreIds(db) && scoring != [] && forall k | 0 <= k < |scoring| :: scoring[k].isOpen
    ensures r.Err? <==> exists read :: read in failing && NeedsRead(scoring, read)
    ensures r.Ok? ==> forall k | 0 <= k < |scoring| :: Covers(r.value, db, scoring[k], now)
  {
    if RulesRead in failing {
      assert Needs(scoring[0], RulesRead);
      return Err(RulesRead);
    }
    var customerIds, stageIds, dealIds := HealthInputs(scoring);
    var contacts := ContactRoles(db, customerIds, failing);
    if contacts.Err? {
      assert customerIds[0] in customerIds;
      assert NeedsRead(scoring, ContactsRead);
      return Err(contacts.error);
    }
    var stages := StageLimits(db, stageIds, failing);
    if stages.Err? {
      assert stageIds[0] in stageIds;
      assert NeedsRead(scoring, StagesRead);
      return Err(stages.error);
    }
    var since := HistorySince(db.rules, now);
    var history := ChangesFor(db, dealIds, since, failing);
    if history.Err? {
      assert dealIds[0] in dealIds;
      assert NeedsRead(scoring, HistoryRead);
      return Err(history.error);
    }
    r := Ok(Shared(contacts.value, stages.value, history.value));
    forall k | 0 <= k < |scoring|
      ensures Covers(r.value, db, scoring[k], now)
    {
      assert scoring[k].customerId != "" ==> scoring[k].customerId in customerIds;
      assert scoring[k].stageId != "" ==> scoring[k].stageId in stageIds;
      assert scoring[k].id != "" ==> scoring[k].id in dealIds;
    }
    forall read | NeedsRead(scoring, read)
      ensures read !in failing
    {
      var k :| 0 <= k < |scoring| && Needs(scoring[k], read);
      assert scoring[k].customerId != "" ==> scoring[k].customerId in customerIds;
      assert scoring[k].stageId != "" ==> scoring[k].stageId in stageIds;
      assert scoring[k].id != "" ==> scoring[k].id in dealIds;
    }
  }

  /** Facts put together from a batch's shared reads give the verdict the deal
      gets alone. */
  lemma SharedReadsSameHealth(db: Tables, shared: Shared, deal: Deal, now: Instant, today: Date)
    requires Covers(shared, db, deal, now)
    ensures var roles := RolesAt(shared.contacts, deal.customerId);
            HealthOf(db.rules, Facts(deal, ChangesAt(shared.history, deal.id), roles.decisionMakers, roles.champions,
                                     LimitAt(shared.stages, deal.stageId), now, today)) == Alone(db, deal, now, today)
  {
    TruncatedHistorySameHealth(db.rules, FactsOf(db, deal, now, today));
  }

  /** opens lists the positions of the open deals. */
  ghost predicate OpenPositions(opens: seq<nat>, deals: seq<Deal>) {
    forall k :: k in opens <==> 0 <= k < |deals| && deals[k].isOpen
  }

  ghost predicate ClosedDone(out: seq<Health>, db: Tables, deals: seq<Deal>, now: Instant, today: Date)
    requires |out| <= |deals|
  {
    forall k | 0 <= k < |out| && !deals[k].isOpen :: out[k] == Alone(db, deals[k], now, today)
  }

  /** The first loop: a deal that is not open is scored without rules at once. */
  method ScoreClosed(db: Tables, deals: seq<Deal>, out: array<Health>, now: Instant, today: Date)
        returns (opens: seq<nat>)
    requires out.Length == |deals|
    modifies out
    ensures OpenPositions(opens, deals) && ClosedDone(out[..], db, deals, now, today)
  {
    opens := [];
    for i := 0 to |deals|
      invariant forall k :: k in opens <==> 0 <= k < i && deals[k].isOpen
      invariant ClosedDone(out[..i], db, deals, now, today)
    {
      if deals[i].isOpen {
        opens := opens + [i];
      } else {
        var health := ScoreDealHealth([], Facts(deals[i], [], 0, 0, None, now, today));
        out[i] := health;
      }
      assert out[..i + 1][..i] == out[..i];
    }
    assert out[..] == out[..|deals|];
  }

  method DealsAt(deals: seq<Deal>, opens: seq<nat>) returns (scoring: seq<Deal>)
    requires OpenPositions(opens, deals)
    ensures |scoring| == |opens| && forall j | 0 <= j < |opens| :: opens[j] < |deals| && scoring[j] == deals[opens[j]]
    ensures forall j | 0 <= j < |scoring| :: scoring[j].isOpen
    ensures forall read :: NeedsRead(scoring, read) <==> NeedsRead(deals, read)
  {
    scoring := [];
    for i := 0 to |opens|
      invariant |scoring| == i && forall j | 0 <= j < i :: opens[j] in opens && scoring[j] == deals[opens[j]]
    {
      assert opens[i] in opens;
      scoring := scoring + [deals[opens[i]]];
    }
    forall read
      ensures NeedsRead(scoring, read) <==> NeedsRead(deals, read)
    {
      NeedsOfOpen(deals, opens, scoring, read);
    }
  }

  lemma NeedsOfOpen(deals: seq<Deal>, opens: seq<nat>, scoring: seq<Deal>, read: Read)
    requires OpenPositions(opens, deals)
    requires |scoring| == |opens| && forall j | 0 <= j < |opens| :: opens[j] < |deals| && scoring[j] == deals[opens[j]]
    ensures NeedsRead(scoring, read) <==> NeedsRead(deals, read)
  {
  }

  /** The last loop: the open deals, from the shared reads. */
  method ScoreOpen(db: Tables, deals: seq<Deal>, opens: seq<nat>, shared: Shared, out: array<Health>, now: Instant,
        today: Date)
    requires out.Length == |deals| && forall j | 0 <= j < |opens| :: opens[j] < |deals| && Covers(shared, db, deals[opens[j]], now)
    modifies out
    ensures forall k | 0 <= k < |deals| :: out[k] == if k in opens then Alone(db, deals[k], now, today) else old(out[k])
  {
    for j := 0 to |opens|
      invariant forall k | 0 <= k < |deals| ::
                  out[k] == if k in opens[..j] then Alone(db, deals[k], now, today) else old(out[k])
    {
      var deal := deals[opens[j]];
      var roles := RolesAt(shared.contacts, deal.customerId);
      SharedReadsSameHealth(db, shared, deal, now, today);
      var health := ScoreDealHealth(db.rules,
        Facts(deal, ChangesAt(shared.history, deal.id), roles.decisionMakers, roles.champions,
              LimitAt(shared.stages, deal.stageId), now, today));
      out[opens[j]] := health;
      assert opens[..j + 1] == opens[..j] + [opens[j]];
    }
    assert opens[..|opens|] == opens;
  }

  /** healthOf: one round of reads for the whole list. The list fails exactly when
      a read it needs fails; otherwise each deal gets, at its own position, the
      verdict it would get alone at the same instant. */
  method HealthOfAll(db: Tables, deals: seq<Deal>, now: Instant, today: Date, failing: Failures)
    returns (r: Result<seq<Health>, Read>)
    requires KeysAreIds(db)
    ensures r.Err? <==> exists read :: read in failing && NeedsRead(deals, read)
    ensures r.Ok? ==> |r.value| == |deals| && forall i :: 0 <= i < |deals| ==> r.value[i] == Alone(db, deals[i], now, today)
  {
    var out := new Health[|deals|](_ => Health("", "", 0, 0, Healthy, [], [], 0));
    var opens := ScoreClosed(db, deals, out, now, today);
    var scoring := DealsAt(deals, opens);
    if opens == [] {
      assert forall k | 0 <= k < |deals| :: k !in opens;
      return Ok(out[..]);
    }
    var read := ReadShared(db, scoring, now, failing);
    if read.Err? {
      return Err(read.error);
    }
    ghost var closed := out[..];
    ScoreOpen(db, deals, opens, read.value, out, now, today);
    forall k | 0 <= k < |deals|
      ensures out[k] == Alone(db, deals[k], now, today)
    {
      assert k !in opens ==> out[k] == closed[k];
    }
    r := Ok(out[..]);
  }
}

/** The deal health rules: which one fires for a deal, and how much of the deal's
    history a rule list has to see. Percentages and ages are exact reals. */
module HealthRules {
  import opened Wrappers
  import opened Text

  /** Instants and durations are nanoseconds, calendar dates are day numbers. */
  type Instant = int
  type Date = int

  const DAY: int := 86_400_000_000_000
  const MIN_INT64: int := -0x8000_0000_0000_0000
  const MAX_INT64: int := 0x7FFF_FFFF_FFFF_FFFF

  /** The largest float64 below 2^63. */
  const LARGEST_FLOAT_INT64: int := 0x7FFF_FFFF_FFFF_FC00

  const SLIPPAGE_WINDOW_DAYS: real := 180.0
  const DROP_WINDOW_DAYS: real := 90.0
  const HISTORY_WINDOW_DAYS: real := 365.0

  /** A JSON value as the rules read it: a text counts only by the date it spells. */
  datatype Json = Number(value: real) | Text(date: Option<Instant>) | Other

  /** The keys a threshold may carry; Other stands for a missing key as well. */
  datatype Threshold = Threshold(days: Json, defaultDays: Json, count: Json, percent: Json, points: Json)

  datatype RuleType =
    NoActivity | CloseDatePassed | NoNextAction | StageStalled | CloseDateSlippage | AmountDrop | ProbabilityDrop
    | NoDecisionMaker | NoChampion | UnknownType

  datatype Rule = Rule(code: string, kind: RuleType, threshold: Threshold, riskScore: int, recommendedAction: string)

  datatype Image = Image(expectedCloseDate: Json, expectedAmount: Json, probability: Json)

  datatype Change = Change(before: Image, after: Image, changedAt: Instant)

  datatype Deal = Deal(
    id: string, customerId: string, stageId: string, isOpen: bool, lastActivityAt: Option<Instant>,
    expectedCloseDate: Option<Date>, nextAction: string, nextActionDate: Option<Date>, stageEnteredAt: Instant)

  datatype Facts = Facts(
    deal: Deal, history: seq<Change>, decisionMakers: nat, champions: nat, stageMaxDays: Option<int>,
    now: Instant, today: Date)

  datatype Evidence =
    | Activity(daysWithout: Option<int>, thresholdDays: real, lastActivityAt: Option<Instant>)
    | CloseDate(expected: Option<Date>)
    | NextAction(action: string, date: Option<Date>)
    | InStage(days: int, stageDays: int)
    | Slips(slips: nat, thresholdCount: int, slipDays: real)
    | AmountFall(percent: real, thresholdPercent: real, amountDays: real)
    | ProbabilityFall(points: real, thresholdPoints: real, probabilityDays: real)
    | Contacts(people: nat)
    | NoEvidence

  function ThresholdNumber(value: Json, fallback: real): real {
    if value.Number? then value.value else fallback
  }

  /** A window of zero or less would switch the rule off, so it is not taken. */
  function WindowDays(threshold: Threshold, fallback: real): (days: real)
    requires fallback > 0.0
    ensures days > 0.0
    ensures days == if threshold.days.Number? && threshold.days.value > 0.0 then threshold.days.value else fallback
  {
    var days := ThresholdNumber(threshold.days, fallback);
    if days > 0.0 then days else fallback
  }

  /** A float64 converted to int64 on amd64: truncated toward zero, and the lowest
      int64 for everything out of range. */
  function ToInt64(x: real): (n: int)
    ensures MIN_INT64 <= n <= LARGEST_FLOAT_INT64
    ensures x >= 0.0 ==> n >= 0 || n == MIN_INT64
  {
    if x >= MIN_INT64 as real && x <= LARGEST_FLOAT_INT64 as real then
      if x >= 0.0 then x.Floor else -(-x).Floor
    else MIN_INT64
  }

  function DaysToDuration(days: real): int {
    ToInt64(days * DAY as real)
  }

  /** Negation in int64: the lowest value is its own opposite. */
  function Negate(d: int): int {
    if d == MIN_INT64 then MIN_INT64 else -d
  }

  /** The difference of two instants, held to what a duration can express. */
  function Sub(t: Instant, u: Instant): int {
    if t - u > MAX_INT64 then MAX_INT64 else if t - u < MIN_INT64 then MIN_INT64 else t - u
  }

  function DaysBetween(t: Instant, u: Instant): real {
    Sub(t, u) as real / DAY as real
  }

  predicate Counted(change: Change, now: Instant, days: real) {
    Sub(now, change.changedAt) <= DaysToDuration(days)
  }

  function Within(history: seq<Change>, now: Instant, days: real): seq<Change> {
    if history == [] then []
    else
      var n := |history| - 1;
      Within(history[..n], now, days) + if Counted(history[n], now, days) then [history[n]] else []
  }

  predicate SlippedLater(change: Change) {
    var before, after := change.before.expectedCloseDate, change.after.expectedCloseDate;
    before.Text? && before.date.Some? && after.Text? && after.date.Some? && after.date.value > before.date.value
  }

  function PercentLost(change: Change): real {
    var before, after := change.before.expectedAmount, change.after.expectedAmount;
    if before.Number? && after.Number? && before.value > 0.0 && after.value < before.value
    then (before.value - after.value) / before.value * 100.0 else 0.0
  }

  function PointsLost(change: Change): real {
    var before, after := change.before.probability, change.after.probability;
    if before.Number? && after.Number? then before.value - after.value else 0.0
  }

  function CountOf(p: Change -> bool, changes: seq<Change>): nat {
    if changes == [] then 0
    else
      var n := |changes| - 1;
      CountOf(p, changes[..n]) + if p(changes[n]) then 1 else 0
  }

  function Larger(a: real, b: real): real {
    if a < b then b else a
  }

  /** The largest loss, and zero when nothing was lost. */
  function LargestOf(f: Change -> real, changes: seq<Change>): real {
    if changes == [] then 0.0
    else
      var n := |changes| - 1;
      Larger(LargestOf(f, changes[..n]), f(changes[n]))
  }

  function RoundToTenth(x: real): real {
    if x >= 0.0 then (x * 10.0 + 0.5).Floor as real / 10.0 else -((-x * 10.0 + 0.5).Floor as real / 10.0)
  }

  function SlippageWindow(rule: Rule): real {
    WindowDays(rule.threshold, SLIPPAGE_WINDOW_DAYS)
  }

  function DropWindow(rule: Rule): real {
    WindowDays(rule.threshold, DROP_WINDOW_DAYS)
  }

  function StageLimit(rule: Rule, facts: Facts): int {
    if facts.stageMaxDays.Some? && facts.stageMaxDays.value > 0 then facts.stageMaxDays.value
    else ToInt64(ThresholdNumber(rule.threshold.defaultDays, 30.0))
  }

  /** Whether a rule fires for these facts, and the evidence shown for it. */
  function Evaluate(rule: Rule, facts: Facts): (bool, Evidence) {
    var deal, now, th := facts.deal, facts.now, rule.threshold;
    match rule.kind
    case NoActivity =>
      var days := ThresholdNumber(th.days, 14.0);
      if deal.lastActivityAt.None? then (true, Activity(None, days, None))
      else
        var age := DaysBetween(now, deal.lastActivityAt.value);
        (age >= days, Activity(Some(ToInt64(age)), days, deal.lastActivityAt))
    case CloseDatePassed =>
      (deal.expectedCloseDate.Some? && deal.expectedCloseDate.value < facts.today, CloseDate(deal.expectedCloseDate))
    case NoNextAction =>
      (TrimSpace(deal.nextAction) == "" || deal.nextActionDate.None?, NextAction(deal.nextAction, deal.nextActionDate))
    case StageStalled =>
      var age := ToInt64(DaysBetween(now, deal.stageEnteredAt));
      (age > StageLimit(rule, facts), InStage(age, StageLimit(rule, facts)))
    case CloseDateSlippage =>
      var limit, days := ToInt64(ThresholdNumber(th.count, 3.0)), SlippageWindow(rule);
      var count := CountOf(SlippedLater, Within(facts.history, now, days));
      (count >= limit, Slips(count, limit, days))
    case AmountDrop =>
      var limit, days := ThresholdNumber(th.percent, 30.0), DropWindow(rule);
      var drop := LargestOf(PercentLost, Within(facts.history, now, days));
      (drop >= limit, AmountFall(RoundToTenth(drop), limit, days))
    case ProbabilityDrop =>
      var limit, days := ThresholdNumber(th.points, 20.0), DropWindow(rule);
      var drop := LargestOf(PointsLost, Within(facts.history, now, days));
      (drop >= limit, ProbabilityFall(drop, limit, days))
    case NoDecisionMaker => (facts.decisionMakers == 0, Contacts(facts.decisionMakers))
    case NoChampion => (facts.champions == 0, Contacts(facts.champions))
    case UnknownType => (false, NoEvidence)
  }

  method WithinWindow(facts: Facts, days: real) returns (out: seq<Change>)
    ensures out == Within(facts.history, facts.now, days)
  {
    var window := DaysToDuration(days);
    out := [];
    for i := 0 to |facts.history|
      invariant out == Within(facts.history[..i], facts.now, days)
    {
      assert facts.history[..i + 1][..i] == facts.history[..i];
      if Sub(facts.now, facts.history[i].changedAt) <= window {
        out := out + [facts.history[i]];
      }
    }
    assert facts.history[..|facts.history|] == facts.history;
  }

  method CountSlips(changes: seq<Change>) returns (count: nat)
    ensures count == CountOf(SlippedLater, changes)
  {
    count := 0;
    for i := 0 to |changes|
      invariant count == CountOf(SlippedLater, changes[..i])
    {
      assert changes[..i + 1][..i] == changes[..i];
      var before, after := changes[i].before.expectedCloseDate, changes[i].after.expectedCloseDate;
      if before.Text? && before.date.Some? && after.Text? && after.date.Some? && after.date.value > before.date.value {
        count := count + 1;
      }
    }
    assert changes[..|changes|] == changes;
  }

  method LargestPercent(changes: seq<Change>) returns (drop: real)
    ensures drop == LargestOf(PercentLost, changes)
  {
    drop := 0.0;
    for i := 0 to |changes|
      invariant drop == LargestOf(PercentLost, changes[..i]) && drop >= 0.0
    {
      assert changes[..i + 1][..i] == changes[..i];
      var before, after := changes[i].before.expectedAmount, changes[i].after.expectedAmount;
      if before.Number? && after.Number? && before.value > 0.0 && after.value < before.value {
        drop := Larger(drop, (before.value - after.value) / before.value * 100.0);
      }
    }
    assert changes[..|changes|] == changes;
  }

  method LargestPoints(changes: seq<Change>) returns (drop: real)
    ensures drop == LargestOf(PointsLost, changes)
  {
    drop := 0.0;
    for i := 0 to |changes|
      invariant drop == LargestOf(PointsLost, changes[..i]) && drop >= 0.0
    {
      assert changes[..i + 1][..i] == changes[..i];
      var before, after := changes[i].before.probability, changes[i].after.probability;
      if before.Number? && after.Number? {
        drop := Larger(drop, before.value - after.value);
      }
    }
    assert changes[..|changes|] == changes;
  }

  method EvaluateHealthRule(rule: Rule, facts: Facts) returns (fired: bool, evidence: Evidence)
    ensures (fired, evidence) == Evaluate(rule, facts)
  {
    var deal := facts.deal;
    match rule.kind
    case NoActivity =>
      var days := ThresholdNumber(rule.threshold.days, 14.0);
      if deal.lastActivityAt.None? {
        return true, Activity(None, days, None);
      }
      var age := DaysBetween(facts.now, deal.lastActivityAt.value);
      fired, evidence := age >= days, Activity(Some(ToInt64(age)), days, deal.lastActivityAt);
    case CloseDatePassed =>
      evidence := CloseDate(deal.expectedCloseDate);
      fired := deal.expectedCloseDate.Some? && deal.expectedCloseDate.value < facts.today;
    case NoNextAction =>
      evidence := NextAction(deal.nextAction, deal.nextActionDate);
      fired := TrimSpace(deal.nextAction) == "" || deal.nextActionDate.None?;
    case StageStalled =>
      var limit := ToInt64(ThresholdNumber(rule.threshold.defaultDays, 30.0));
      if facts.stageMaxDays.Some? && facts.stageMaxDays.value > 0 {
        limit := facts.stageMaxDays.value;
      }
      var age := ToInt64(DaysBetween(facts.now, deal.stageEnteredAt));
      fired, evidence := age > limit, InStage(age, limit);
    case CloseDateSlippage =>
      var limit, days := ToInt64(ThresholdNumber(rule.threshold.count, 3.0)), WindowDays(rule.threshold, SLIPPAGE_WINDOW_DAYS);
      var changes := WithinWindow(facts, days);
      var count := CountSlips(changes);
      fired, evidence := count >= limit, Slips(count, limit, days);
    case AmountDrop =>
      var limit, days := ThresholdNumber(rule.threshold.percent, 30.0), WindowDays(rule.threshold, DROP_WINDOW_DAYS);
      var changes := WithinWindow(facts, days);
      var drop := LargestPercent(changes);
      fired, evidence := drop >= limit, AmountFall(RoundToTenth(drop), limit, days);
    case ProbabilityDrop =>
      var limit, days := ThresholdNumber(rule.threshold.points, 20.0), WindowDays(rule.threshold, DROP_WINDOW_DAYS);
      var changes := WithinWindow(facts, days);
      var drop := LargestPoints(changes);
      fired, evidence := drop >= limit, ProbabilityFall(drop, limit, days);
    case NoDecisionMaker =>
      fired, evidence := facts.decisionMakers == 0, Contacts(facts.decisionMakers);
    case NoChampion =>
      fired, evidence := facts.champions == 0, Contacts(facts.champions);
    case UnknownType =>
      fired, evidence := false, NoEvidence;
  }

  // ----- What the loops mean -----

  lemma {:induction false} WithinIsFilter(history: seq<Change>, now: Instant, days: real, change: Change)
    ensures change in Within(history, now, days) <==> change in history && Counted(change, now, days)
  {
    if history != [] {
      var n := |history| - 1;
      WithinIsFilter(history[..n], now, days, change);
      assert history == history[..n] + [history[n]];
    }
  }

  lemma {:induction false} LargestReaches(f: Change -> real, changes: seq<Change>, limit: real)
    ensures LargestOf(f, changes) >= limit <==> limit <= 0.0 || exists change :: change in changes && f(change) >= limit
  {
    if changes != [] {
      var n := |changes| - 1;
      LargestReaches(f, changes[..n], limit);
      assert changes == changes[..n] + [changes[n]];
      assert forall change :: change in changes <==> change in changes[..n] || change == changes[n];
    }
  }

  /** A largest loss over a window reaches a threshold exactly when some one change
      inside the window does, or the threshold is zero or less. */
  lemma {:induction false} LossReachesIff(f: Change -> real, history: seq<Change>, now: Instant, days: real,
        limit: real)
    ensures LargestOf(f, Within(history, now, days)) >= limit
       <==> limit <= 0.0 || exists change :: change in history && Counted(change, now, days) && f(change) >= limit
  {
    var counted := Within(history, now, days);
    LargestReaches(f, counted, limit);
    forall change
      ensures change in counted <==> change in history && Counted(change, now, days)
    {
      WithinIsFilter(history, now, days, change);
    }
  }

  lemma DropRulesFireIff(rule: Rule, facts: Facts)
    requires rule.kind == AmountDrop || rule.kind == ProbabilityDrop
    ensures var lost := if rule.kind == AmountDrop then PercentLost else PointsLost;
            var limit := if rule.kind == AmountDrop then ThresholdNumber(rule.threshold.percent, 30.0)
                         else ThresholdNumber(rule.threshold.points, 20.0);
            Evaluate(rule, facts).0 <==>
            limit <= 0.0
            || exists change :: change in facts.history && Counted(change, facts.now, DropWindow(rule)) && lost(change) >= limit
  {
    if rule.kind == AmountDrop {
      LossReachesIff(PercentLost, facts.history, facts.now, DropWindow(rule), ThresholdNumber(rule.threshold.percent, 30.0));
    } else {
      LossReachesIff(PointsLost, facts.history, facts.now, DropWindow(rule), ThresholdNumber(rule.threshold.points, 20.0));
    }
  }

  /** The positions of the changes a slippage rule counts. */
  function SlipsIn(history: seq<Change>, now: Instant, days: real): set<nat> {
    set i: nat | i < |history| && Counted(history[i], now, days) && SlippedLater(history[i])
  }

  lemma {:induction false} SlipsAreCounted(history: seq<Change>, now: Instant, days: real)
    ensures CountOf(SlippedLater, Within(history, now, days)) == |SlipsIn(history, now, days)|
  {
    if history != [] {
      var n := |history| - 1;
      SlipsAreCounted(history[..n], now, days);
      var before := Within(history[..n], now, days);
      assert (before + [history[n]])[..|before|] == before && before + [] == before;
      assert forall i: nat | i < n :: history[..n][i] == history[i];
      assert SlipsIn(history, now, days)
          == SlipsIn(history[..n], now, days)
             + if Counted(history[n], now, days) && SlippedLater(history[n]) then {n} else {};
    }
  }

  /** The slippage rule fires exactly when at least the threshold number of changes
      inside its window moved the close date later. */
  lemma SlippageFiresIff(rule: Rule, facts: Facts)
    requires rule.kind == CloseDateSlippage
    ensures Evaluate(rule, facts).0
       <==> |SlipsIn(facts.history, facts.now, SlippageWindow(rule))| >= ToInt64(ThresholdNumber(rule.threshold.count, 3.0))
  {
    SlipsAreCounted(facts.history, facts.now, SlippageWindow(rule));
  }

  // ----- How much history a rule list has to see -----

  /** The window a rule reads history through, if it reads any. */
  function HistoryWindow(rule: Rule): Option<real> {
    match rule.kind
    case CloseDateSlippage => Some(SlippageWindow(rule))
    case AmountDrop => Some(DropWindow(rule))
    case ProbabilityDrop => Some(DropWindow(rule))
    case _ => None
  }

  function Widest(rules: seq<Rule>): (days: real)
    ensures days >= HISTORY_WINDOW_DAYS
    ensures forall i | 0 <= i < |rules| && HistoryWindow(rules[i]).Some? :: HistoryWindow(rules[i]).value <= days
  {
    if rules == [] then HISTORY_WINDOW_DAYS
    else
      var n := |rules| - 1;
      var before := Widest(rules[..n]);
      assert forall i | 0 <= i < n :: rules[..n][i] == rules[i];
      if HistoryWindow(rules[n]).Some? then Larger(before, HistoryWindow(rules[n]).value) else before
  }

  function SinceOf(rules: seq<Rule>, now: Instant): Instant {
    now + Negate(DaysToDuration(Widest(rules)))
  }

  lemma DurationsAreMonotone(days: real, widest: real)
    requires 0.0 < days <= widest
    ensures DaysToDuration(widest) != MIN_INT64 ==> 0 <= DaysToDuration(days) <= DaysToDuration(widest)
  {
  }

  /** The read never starts later than a year back. */
  lemma AtLeastAYearIsRead(rules: seq<Rule>, now: Instant)
    ensures SinceOf(rules, now) <= now - 365 * DAY
  {
    DurationsAreMonotone(HISTORY_WINDOW_DAYS, Widest(rules));
    assert DaysToDuration(HISTORY_WINDOW_DAYS) == 365 * DAY;
  }

  method HistorySince(rules: seq<Rule>, now: Instant) returns (since: Instant)
    ensures since == SinceOf(rules, now)
  {
    var widest := HISTORY_WINDOW_DAYS;
    for i := 0 to |rules|
      invariant widest == Widest(rules[..i])
    {
      assert rules[..i + 1][..i] == rules[..i];
      match rules[i].kind
      case CloseDateSlippage =>
        widest := Larger(widest, WindowDays(rules[i].threshold, SLIPPAGE_WINDOW_DAYS));
      case AmountDrop =>
        widest := Larger(widest, WindowDays(rules[i].threshold, DROP_WINDOW_DAYS));
      case ProbabilityDrop =>
        widest := Larger(widest, WindowDays(rules[i].threshold, DROP_WINDOW_DAYS));
      case _ =>
    }
    assert rules[..|rules|] == rules;
    since := now + Negate(DaysToDuration(widest));
  }

  /** The history read from an instant on, in the order it is kept. */
  function ReadSince(history: seq<Change>, since: Instant): seq<Change> {
    if history == [] then []
    else
      var n := |history| - 1;
      ReadSince(history[..n], since) + if history[n].changedAt >= since then [history[n]] else []
  }

  /** Whatever a window counts was changed since the widest window opened, even
      where a window is too long for a duration to express. */
  lemma CountedWasRead(change: Change, now: Instant, days: real, widest: real)
    requires 0.0 < days <= widest
    requires Counted(change, now, days)
    ensures change.changedAt >= now + Negate(DaysToDuration(widest))
  {
    DurationsAreMonotone(days, widest);
    assert Sub(now, change.changedAt) <= DaysToDuration(days) <= LARGEST_FLOAT_INT64 < MAX_INT64;
    assert now - change.changedAt <= DaysToDuration(days);
  }

  lemma {:induction false} WithinAppend(s: seq<Change>, t: seq<Change>, now: Instant, days: real)
    requires |t| <= 1
    ensures Within(s + t, now, days) == Within(s, now, days) + Within(t, now, days)
  {
    if t == [] {
      assert s + t == s;
    } else {
      assert (s + t)[..|s|] == s && t[..0] == [];
    }
  }

  lemma {:induction false} WithinSurvivesReading(history: seq<Change>, now: Instant, days: real, widest: real)
    requires 0.0 < days <= widest
    ensures Within(ReadSince(history, now + Negate(DaysToDuration(widest))), now, days) == Within(history, now, days)
  {
    if history != [] {
      var n, since := |history| - 1, now + Negate(DaysToDuration(widest));
      WithinSurvivesReading(history[..n], now, days, widest);
      var last := if history[n].changedAt >= since then [history[n]] else [];
      WithinAppend(ReadSince(history[..n], since), last, now, days);
      if Counted(history[n], now, days) {
        CountedWasRead(history[n], now, days, widest);
      }
      assert [history[n]][..0] == [];
    }
  }

  /** Every rule of the list gives the same verdict and evidence on the history
      read since SinceOf as on the full history. */
  lemma TruncatedHistoryIsEnough(rules: seq<Rule>, i: nat, facts: Facts)
    requires i < |rules|
    ensures Evaluate(rules[i], facts.(history := ReadSince(facts.history, SinceOf(rules, facts.now))))
         == Evaluate(rules[i], facts)
  {
    if HistoryWindow(rules[i]).Some? {
      var days := HistoryWindow(rules[i]).value;
      assert days <= Widest(rules);
      WithinSurvivesReading(facts.history, facts.now, days, Widest(rules));
    }
  }
}

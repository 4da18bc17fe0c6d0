/** When each deal health rule fires and what it then shows, said on the facts. */
module HealthFiring {
  import opened Wrappers
  import opened Text
  import opened HealthRules

  // ----- Time and numbers -----

  /** The time from one instant to another, as far as 64 bits can hold it. */
  function Elapsed(since: Instant, now: Instant): int {
    var d := now - since;
    if d > 0x7FFF_FFFF_FFFF_FFFF then 0x7FFF_FFFF_FFFF_FFFF
    else if d < -0x8000_0000_0000_0000 then -0x8000_0000_0000_0000
    else d
  }

  /** Whole days, counted toward zero. */
  function WholeDays(elapsed: int): int {
    if elapsed >= 0 then elapsed / DAY else -((-elapsed) / DAY)
  }

  /** The number configured under a key, or what the rule falls back on. */
  function Configured(value: Json, fallback: real): real {
    if value.Number? then value.value else fallback
  }

  lemma ElapsedIsSub(since: Instant, now: Instant)
    ensures Sub(now, since) == Elapsed(since, now)
  {
  }

  lemma FloorOfDays(x: int)
    requires x >= 0
    ensures (x as real / DAY as real).Floor == x / DAY
  {
    var q := x / DAY;
    assert q * DAY <= x < (q + 1) * DAY;
    assert q as real <= x as real / DAY as real < (q + 1) as real;
  }

  lemma DaysAreWhole(x: int)
    requires MIN_INT64 <= x <= MAX_INT64
    ensures ToInt64(x as real / DAY as real) == WholeDays(x)
  {
    if x >= 0 {
      FloorOfDays(x);
    } else {
      FloorOfDays(-x);
      assert -(x as real / DAY as real) == (-x) as real / DAY as real;
    }
    assert MIN_INT64 as real <= x as real / DAY as real <= LARGEST_FLOAT_INT64 as real;
  }

  /** A conversion to int64 drops the fraction, and out of range gives the lowest one. */
  lemma ConversionTruncates(x: real)
    ensures var n := ToInt64(x);
            if x < -0x8000_0000_0000_0000 as real || x > LARGEST_FLOAT_INT64 as real then n == -0x8000_0000_0000_0000
            else if x >= 0.0 then n as real <= x < n as real + 1.0
            else n as real - 1.0 < x <= n as real
  {
  }

  // ----- The six rules that read no history -----

  /** No activity, or none for at least the threshold. */
  lemma NoActivityFiresIff(rule: Rule, facts: Facts)
    requires rule.kind == NoActivity
    ensures var last, days := facts.deal.lastActivityAt, Configured(rule.threshold.days, 14.0);
            && (Evaluate(rule, facts).0 <==> last.None? || Elapsed(last.value, facts.now) as real >= days * DAY as real)
            && Evaluate(rule, facts).1
               == Activity(if last.None? then None else Some(WholeDays(Elapsed(last.value, facts.now))), days, last)
  {
    var last := facts.deal.lastActivityAt;
    if last.Some? {
      ElapsedIsSub(last.value, facts.now);
      DaysAreWhole(Elapsed(last.value, facts.now));
      DaysReach(Elapsed(last.value, facts.now), Configured(rule.threshold.days, 14.0));
    }
  }

  lemma DaysReach(x: int, days: real)
    ensures x as real / DAY as real >= days <==> x as real >= days * DAY as real
  {
  }

  /** The date is before today. */
  lemma CloseDateFiresIff(rule: Rule, facts: Facts)
    requires rule.kind == CloseDatePassed
    ensures Evaluate(rule, facts).0 <==> exists date :: facts.deal.expectedCloseDate == Some(date) && date < facts.today
    ensures Evaluate(rule, facts).1 == CloseDate(facts.deal.expectedCloseDate)
  {
    assert facts.deal.expectedCloseDate.Some? ==> facts.deal.expectedCloseDate == Some(facts.deal.expectedCloseDate.value);
  }

  /** The text is blank or the date is missing. */
  lemma NextActionFiresIff(rule: Rule, facts: Facts)
    requires rule.kind == NoNextAction
    ensures !Evaluate(rule, facts).0 <==> facts.deal.nextActionDate.Some? && exists c :: c in facts.deal.nextAction && !IsSpace(c)
    ensures Evaluate(rule, facts).1 == NextAction(facts.deal.nextAction, facts.deal.nextActionDate)
  {
    BlankIff(facts.deal.nextAction);
  }

  lemma {:induction false} LeftBlankIff(s: string)
    ensures TrimLeft(s) == "" <==> forall c | c in s :: IsSpace(c)
  {
    if s != "" && IsSpace(s[0]) {
      LeftBlankIff(s[1..]);
      assert s == [s[0]] + s[1..];
    } else if s != "" {
      assert s[0] in s;
    }
  }

  lemma BlankIff(s: string)
    ensures TrimSpace(s) == "" <==> forall c | c in s :: IsSpace(c)
  {
    LeftBlankIff(s);
    TrimLeftStarts(s);
    var left := TrimLeft(s);
    TrimRightEnds(left);
    if left != "" {
      FirstStays(left);
    }
  }

  lemma {:induction false} FirstStays(s: string)
    requires s != "" && !IsSpace(s[0])
    ensures TrimRight(s) != ""
  {
    if IsSpace(s[|s| - 1]) {
      FirstStays(s[..|s| - 1]);
    }
  }

  /** The whole days in the stage exceed the stage's own limit, or the rule's where the
      stage has none. */
  lemma StageFiresIff(rule: Rule, facts: Facts)
    requires rule.kind == StageStalled
    ensures var days := WholeDays(Elapsed(facts.deal.stageEnteredAt, facts.now));
            var limit := if facts.stageMaxDays.Some? && facts.stageMaxDays.value > 0 then facts.stageMaxDays.value
                         else ToInt64(Configured(rule.threshold.defaultDays, 30.0));
            Evaluate(rule, facts) == (days > limit, InStage(days, limit))
  {
    ElapsedIsSub(facts.deal.stageEnteredAt, facts.now);
    DaysAreWhole(Elapsed(facts.deal.stageEnteredAt, facts.now));
  }

  /** Nobody who decides, or nobody who champions the deal. */
  lemma ContactRulesFireIff(rule: Rule, facts: Facts)
    requires rule.kind == NoDecisionMaker || rule.kind == NoChampion
    ensures var people := if rule.kind == NoDecisionMaker then facts.decisionMakers else facts.champions;
            Evaluate(rule, facts) == (people == 0, Contacts(people))
  {
  }

  lemma UnknownRuleNeverFires(rule: Rule, facts: Facts)
    requires rule.kind == UnknownType
    ensures Evaluate(rule, facts) == (false, NoEvidence)
  {
  }

  // ----- The three rules that read history -----

  /** The window in nanoseconds; one too long for 64 bits reaches only what lies further
      ahead than 64 bits can hold. */
  predicate InWindow(change: Change, now: Instant, days: real) {
    if days * DAY as real <= LARGEST_FLOAT_INT64 as real then Elapsed(change.changedAt, now) as real <= days * DAY as real
    else Elapsed(change.changedAt, now) == -0x8000_0000_0000_0000
  }

  lemma CountedIff(change: Change, now: Instant, days: real)
    requires days > 0.0
    ensures Counted(change, now, days) <==> InWindow(change, now, days)
  {
    ElapsedIsSub(change.changedAt, now);
    ConversionTruncates(days * DAY as real);
    assert days * DAY as real > 0.0;
  }

  function WindowOf(rule: Rule, fallback: real): real {
    if rule.threshold.days.Number? && rule.threshold.days.value > 0.0 then rule.threshold.days.value else fallback
  }

  /** The close date moved later. */
  predicate MovedLater(change: Change) {
    match (change.before.expectedCloseDate, change.after.expectedCloseDate)
    case (Text(Some(before)), Text(Some(after))) => after > before
    case _ => false
  }

  lemma SlippageCountsMoves(rule: Rule, facts: Facts)
    requires rule.kind == CloseDateSlippage
    ensures var days, limit := WindowOf(rule, 180.0), ToInt64(Configured(rule.threshold.count, 3.0));
            var moves := set i: nat | i < |facts.history| && InWindow(facts.history[i], facts.now, days) && MovedLater(facts.history[i]);
            Evaluate(rule, facts) == (|moves| >= limit, Slips(|moves|, limit, days))
  {
    var days := WindowOf(rule, 180.0);
    SlipsAreCounted(facts.history, facts.now, days);
    forall i: nat | i < |facts.history|
      ensures Counted(facts.history[i], facts.now, days) <==> InWindow(facts.history[i], facts.now, days)
      ensures SlippedLater(facts.history[i]) <==> MovedLater(facts.history[i])
    {
      CountedIff(facts.history[i], facts.now, days);
    }
    var moves := set i: nat | i < |facts.history| && InWindow(facts.history[i], facts.now, days) && MovedLater(facts.history[i]);
    assert SlipsIn(facts.history, facts.now, days) == moves;
  }

  /** The change took at least this share, in percent, off a positive amount. */
  predicate LosesPercent(change: Change, percent: real) {
    match (change.before.expectedAmount, change.after.expectedAmount)
    case (Number(before), Number(after)) => before > 0.0 && after < before && (before - after) * 100.0 >= percent * before
    case _ => false
  }

  /** The change took at least this many points off the probability. */
  predicate LosesPoints(change: Change, points: real) {
    match (change.before.probability, change.after.probability)
    case (Number(before), Number(after)) => before - after >= points
    case _ => false
  }

  lemma ShareReaches(before: real, after: real, percent: real)
    requires before > 0.0
    ensures (before - after) / before * 100.0 >= percent <==> (before - after) * 100.0 >= percent * before
  {
    var share := (before - after) / before;
    assert share * before == before - after;
    assert share * 100.0 * before == (before - after) * 100.0;
    if share * 100.0 >= percent {
      TimesPositive(percent, share * 100.0, before);
    } else {
      TimesPositiveStrict(share * 100.0, percent, before);
    }
  }

  lemma TimesPositive(x: real, y: real, z: real)
    requires x <= y && z > 0.0
    ensures x * z <= y * z
  {
  }

  lemma TimesPositiveStrict(x: real, y: real, z: real)
    requires x < y && z > 0.0
    ensures x * z < y * z
  {
  }

  lemma PercentReaches(change: Change, percent: real)
    requires percent > 0.0
    ensures PercentLost(change) >= percent <==> LosesPercent(change, percent)
  {
    var before, after := change.before.expectedAmount, change.after.expectedAmount;
    if before.Number? && after.Number? && before.value > 0.0 && after.value < before.value {
      ShareReaches(before.value, after.value, percent);
    }
  }

  lemma PointsReach(change: Change, points: real)
    requires points > 0.0
    ensures PointsLost(change) >= points <==> LosesPoints(change, points)
  {
  }

  lemma AmountDropFiresIff(rule: Rule, facts: Facts)
    requires rule.kind == AmountDrop
    ensures var days, limit := WindowOf(rule, 90.0), Configured(rule.threshold.percent, 30.0);
            Evaluate(rule, facts).0
            <==> || limit <= 0.0
                 || exists change :: change in facts.history && InWindow(change, facts.now, days) && LosesPercent(change, limit)
  {
    var days, limit := WindowOf(rule, 90.0), Configured(rule.threshold.percent, 30.0);
    LossReachesIff(PercentLost, facts.history, facts.now, days, limit);
    if limit > 0.0 {
      forall change
        ensures Counted(change, facts.now, days) <==> InWindow(change, facts.now, days)
        ensures PercentLost(change) >= limit <==> LosesPercent(change, limit)
      {
        CountedIff(change, facts.now, days);
        PercentReaches(change, limit);
      }
    }
  }

  lemma ProbabilityDropFiresIff(rule: Rule, facts: Facts)
    requires rule.kind == ProbabilityDrop
    ensures var days, limit := WindowOf(rule, 90.0), Configured(rule.threshold.points, 20.0);
            Evaluate(rule, facts).0
            <==> || limit <= 0.0
                 || exists change :: change in facts.history && InWindow(change, facts.now, days) && LosesPoints(change, limit)
  {
    var days, limit := WindowOf(rule, 90.0), Configured(rule.threshold.points, 20.0);
    LossReachesIff(PointsLost, facts.history, facts.now, days, limit);
    if limit > 0.0 {
      forall change
        ensures Counted(change, facts.now, days) <==> InWindow(change, facts.now, days)
        ensures PointsLost(change) >= limit <==> LosesPoints(change, limit)
      {
        CountedIff(change, facts.now, days);
        PointsReach(change, limit);
      }
    }
  }

  /** The largest loss in the window, or none: no counted change loses more, and if it is
      not zero one loses just that. */
  lemma {:induction false} LargestIsReached(f: Change -> real, changes: seq<Change>)
    ensures var largest := LargestOf(f, changes);
            && largest >= 0.0 && (forall change | change in changes :: f(change) <= largest)
            && (largest == 0.0 || exists change :: change in changes && f(change) == largest)
  {
    if changes != [] {
      var n := |changes| - 1;
      LargestIsReached(f, changes[..n]);
      assert changes == changes[..n] + [changes[n]];
      assert forall change :: change in changes <==> change in changes[..n] || change == changes[n];
    }
  }

  /** x is y to the nearest tenth, halves away from zero. */
  predicate IsTenthOf(x: real, y: real) {
    && (x * 10.0).Floor as real == x * 10.0
    && if y >= 0.0 then x - 0.05 <= y < x + 0.05 else x - 0.05 < y <= x + 0.05
  }

  lemma TenthsOf(n: int)
    ensures (n as real / 10.0) * 10.0 == n as real && ((n as real / 10.0) * 10.0).Floor == n
  {
    var x := n as real / 10.0;
    assert x * 10.0 == n as real;
  }

  lemma NearestTenth(y: real, n: int)
    requires y >= 0.0 && n == (y * 10.0 + 0.5).Floor
    ensures n as real / 10.0 - 0.05 <= y < n as real / 10.0 + 0.05
  {
    assert n as real <= y * 10.0 + 0.5 < n as real + 1.0;
  }

  lemma RoundsToTenth(y: real)
    ensures IsTenthOf(RoundToTenth(y), y)
  {
    if y >= 0.0 {
      var n := (y * 10.0 + 0.5).Floor;
      TenthsOf(n);
      NearestTenth(y, n);
    } else {
      var n := (-y * 10.0 + 0.5).Floor;
      TenthsOf(-n);
      NearestTenth(-y, n);
      assert RoundToTenth(y) == -(n as real / 10.0) == (-n) as real / 10.0;
    }
  }

  /** The largest loss among the changes of the window, or zero. */
  ghost predicate IsLargest(lost: Change -> real, facts: Facts, days: real, largest: real) {
    && largest >= 0.0
    && (forall change | change in facts.history && InWindow(change, facts.now, days) :: lost(change) <= largest)
    && (largest == 0.0
        || exists change :: change in facts.history && InWindow(change, facts.now, days) && lost(change) == largest)
  }

  lemma {:induction false} LargestInWindow(lost: Change -> real, facts: Facts, days: real)
    requires days > 0.0
    ensures IsLargest(lost, facts, days, LargestOf(lost, Within(facts.history, facts.now, days)))
  {
    var counted := Within(facts.history, facts.now, days);
    LargestIsReached(lost, counted);
    forall change
      ensures change in counted <==> change in facts.history && InWindow(change, facts.now, days)
    {
      WithinIsFilter(facts.history, facts.now, days, change);
      CountedIff(change, facts.now, days);
    }
  }

  /** An amount rule shows the largest loss in its window, in percent to the nearest
      tenth, with its threshold and its window. */
  lemma AmountDropShows(rule: Rule, facts: Facts) returns (largest: real, shown: real)
    requires rule.kind == AmountDrop
    ensures IsLargest(PercentLost, facts, WindowOf(rule, 90.0), largest) && IsTenthOf(shown, largest)
    ensures Evaluate(rule, facts).1 == AmountFall(shown, Configured(rule.threshold.percent, 30.0), WindowOf(rule, 90.0))
  {
    largest := LargestOf(PercentLost, Within(facts.history, facts.now, WindowOf(rule, 90.0)));
    shown := RoundToTenth(largest);
    LargestInWindow(PercentLost, facts, WindowOf(rule, 90.0));
    RoundsToTenth(largest);
  }

  /** A probability rule shows the largest loss in points. */
  lemma ProbabilityDropShows(rule: Rule, facts: Facts) returns (largest: real)
    requires rule.kind == ProbabilityDrop
    ensures IsLargest(PointsLost, facts, WindowOf(rule, 90.0), largest)
    ensures Evaluate(rule, facts).1 == ProbabilityFall(largest, Configured(rule.threshold.points, 20.0), WindowOf(rule, 90.0))
  {
    largest := LargestOf(PointsLost, Within(facts.history, facts.now, WindowOf(rule, 90.0)));
    LargestInWindow(PointsLost, facts, WindowOf(rule, 90.0));
  }
}

/** The advice of one account: at most one recommendation of a type, from its risks
    of 70 or more and from a fresh quote. */
module Recommendations {
  import opened Wrappers
  import opened Ordering
  import opened SignalRules
  import opened RiskScoring

  datatype AdviceType = ScheduleMeeting | ResolveVoc | CreateRenewal | AdvanceDeal | FollowUpQuote

  datatype Priority = NormalPriority | HighPriority

  datatype Advice = Advice(kind: AdviceType, priority: Priority, assignee: Id, due: int)

  function AdviceFor(kind: RiskType): AdviceType {
    match kind
    case RelationshipRisk => ScheduleMeeting
    case VocRisk => ResolveVoc
    case RenewalRisk => CreateRenewal
    case DealRisk => AdvanceDeal
  }

  function KindsOf(advice: seq<Advice>): set<AdviceType> {
    set a | a in advice :: a.kind
  }

  function FromRisk(r: Risk, owner: Id, now: int): Advice {
    Advice(AdviceFor(r.kind), HighPriority, owner, now + DAY * if r.score >= 90 then 3 else 7)
  }

  function RiskAdvice(risks: seq<Risk>, owner: Id, now: int): seq<Advice> {
    if risks == [] then []
    else
      var n := |risks| - 1;
      var before := RiskAdvice(risks[..n], owner, now);
      before + if risks[n].score >= 70 && AdviceFor(risks[n].kind) !in KindsOf(before)
               then [FromRisk(risks[n], owner, now)] else []
  }

  function AdviceOf(owner: Id, quoted: bool, risks: seq<Risk>, now: int): seq<Advice> {
    var fromRisks := RiskAdvice(risks, owner, now);
    fromRisks + if quoted && AdvanceDeal !in KindsOf(fromRisks)
                then [Advice(FollowUpQuote, NormalPriority, owner, now + DAY * 5)] else []
  }

  /** recommend. */
  method Recommend(owner: Id, signals: seq<Signal>, risks: seq<Risk>, now: int) returns (advice: seq<Advice>)
    ensures advice == AdviceOf(owner, OfKind(signals, QuoteRequested) != [], risks, now)
  {
    var byType := GroupByType(signals);
    var seen := {};
    advice := [];
    for i := 0 to |risks|
      invariant advice == RiskAdvice(risks[..i], owner, now)
      invariant seen == KindsOf(advice)
    {
      assert risks[..i + 1][..i] == risks[..i];
      var risk := risks[i];
      if risk.score >= 70 && AdviceFor(risk.kind) !in seen {
        seen := seen + {AdviceFor(risk.kind)};
        advice := advice + [FromRisk(risk, owner, now)];
      }
    }
    assert risks[..|risks|] == risks;
    if |Lookup(byType, QuoteRequested)| > 0 && AdvanceDeal !in seen {
      advice := advice + [Advice(FollowUpQuote, NormalPriority, owner, now + DAY * 5)];
    }
  }

  ghost predicate OncePerType(advice: seq<Advice>) {
    forall i, j | 0 <= i < j < |advice| :: advice[i].kind != advice[j].kind
  }

  ghost predicate Alarming(risks: seq<Risk>, kind: AdviceType) {
    exists r :: r in risks && r.score >= 70 && AdviceFor(r.kind) == kind
  }

  lemma {:induction false} RiskAdviceKinds(risks: seq<Risk>, owner: Id, now: int, kind: AdviceType)
    ensures OncePerType(RiskAdvice(risks, owner, now))
    ensures kind in KindsOf(RiskAdvice(risks, owner, now)) <==> Alarming(risks, kind)
  {
    if risks != [] {
      var n := |risks| - 1;
      RiskAdviceKinds(risks[..n], owner, now, kind);
      var before := RiskAdvice(risks[..n], owner, now);
      assert risks == risks[..n] + [risks[n]];
      assert Alarming(risks, kind) <==> Alarming(risks[..n], kind) || (risks[n].score >= 70 && AdviceFor(risks[n].kind) == kind);
      forall i | 0 <= i < |before|
        ensures before[i].kind in KindsOf(before)
      {
      }
    }
  }

  /** One recommendation of a type at most, and a type is recommended exactly when
      a risk of 70 or more calls for it; the quote follow-up, exactly when there is
      a quote and no deal needs advancing. */
  lemma AdviceIff(owner: Id, quoted: bool, risks: seq<Risk>, now: int, kind: AdviceType)
    ensures OncePerType(AdviceOf(owner, quoted, risks, now))
    ensures kind in KindsOf(AdviceOf(owner, quoted, risks, now))
       <==> Alarming(risks, kind) || (kind == FollowUpQuote && quoted && !Alarming(risks, AdvanceDeal))
  {
    var fromRisks := RiskAdvice(risks, owner, now);
    RiskAdviceKinds(risks, owner, now, kind);
    RiskAdviceKinds(risks, owner, now, AdvanceDeal);
    RiskAdviceKinds(risks, owner, now, FollowUpQuote);
    forall i | 0 <= i < |fromRisks|
      ensures fromRisks[i].kind in KindsOf(fromRisks)
    {
    }
  }

  /** The due date comes from the first risk that calls for the advice. */
  lemma {:induction false} AdviceFollowsFirstRisk(risks: seq<Risk>, owner: Id, now: int, a: Advice) returns (i: nat)
    requires a in RiskAdvice(risks, owner, now)
    ensures i < |risks| && risks[i].score >= 70 && a == FromRisk(risks[i], owner, now)
    ensures forall j | 0 <= j < i :: risks[j].score < 70 || AdviceFor(risks[j].kind) != a.kind
  {
    var n := |risks| - 1;
    var before := RiskAdvice(risks[..n], owner, now);
    if a in before {
      i := AdviceFollowsFirstRisk(risks[..n], owner, now, a);
    } else {
      i := n;
      RiskAdviceKinds(risks[..n], owner, now, a.kind);
      forall j | 0 <= j < n
        ensures risks[j].score < 70 || AdviceFor(risks[j].kind) != a.kind
      {
        assert risks[j] in risks[..n];
      }
    }
  }

  /** The risk that calls for advice of this kind. */
  predicate CalledForBy(kind: AdviceType, risk: RiskType) {
    match kind
    case ScheduleMeeting => risk == RelationshipRisk
    case ResolveVoc => risk == VocRisk
    case CreateRenewal => risk == RenewalRisk
    case AdvanceDeal => risk == DealRisk
    case FollowUpQuote => false
  }

  /** The first risk of 70 or more that calls for advice of this kind. */
  ghost predicate FirstCall(risks: seq<Risk>, kind: AdviceType, i: nat) {
    && i < |risks| && risks[i].score >= 70 && CalledForBy(kind, risks[i].kind)
    && forall j | 0 <= j < i :: risks[j].score < 70 || !CalledForBy(kind, risks[j].kind)
  }

  lemma CallsAreMapped(kind: AdviceType, risk: RiskType)
    ensures CalledForBy(kind, risk) <==> AdviceFor(risk) == kind
  {
  }

  /** In a week, or in three days for a risk of 90 or more. */
  function Deadline(score: int, now: int): int {
    now + (if score >= 90 then 3 else 7) * 86_400
  }

  /** What the first call asks for: of the owner, with high priority and a deadline
      by its score. */
  ghost predicate CalledFor(risks: seq<Risk>, owner: Id, now: int, a: Advice) {
    exists i: nat :: FirstCall(risks, a.kind, i) && a == Advice(a.kind, HighPriority, owner, Deadline(risks[i].score, now))
  }

  lemma AdviceHasCall(risks: seq<Risk>, owner: Id, now: int, a: Advice) returns (i: nat)
    requires a in RiskAdvice(risks, owner, now)
    ensures FirstCall(risks, a.kind, i) && a == Advice(a.kind, HighPriority, owner, Deadline(risks[i].score, now))
  {
    i := AdviceFollowsFirstRisk(risks, owner, now, a);
    forall j | 0 <= j <= i
      ensures CalledForBy(a.kind, risks[j].kind) <==> AdviceFor(risks[j].kind) == a.kind
    {
      CallsAreMapped(a.kind, risks[j].kind);
    }
  }

  lemma FirstCallIsUnique(risks: seq<Risk>, kind: AdviceType, i: nat, j: nat)
    requires FirstCall(risks, kind, i) && FirstCall(risks, kind, j)
    ensures i == j
  {
  }

  lemma {:induction false} CallHasAdvice(risks: seq<Risk>, owner: Id, now: int, a: Advice, i: nat)
    requires FirstCall(risks, a.kind, i) && a == Advice(a.kind, HighPriority, owner, Deadline(risks[i].score, now))
    ensures a in RiskAdvice(risks, owner, now)
  {
    RiskAdviceKinds(risks, owner, now, a.kind);
    CallsAreMapped(a.kind, risks[i].kind);
    assert risks[i] in risks;
    var b :| b in RiskAdvice(risks, owner, now) && b.kind == a.kind;
    var j := AdviceHasCall(risks, owner, now, b);
    FirstCallIsUnique(risks, a.kind, i, j);
  }

  lemma {:induction false} RiskAdviceIff(risks: seq<Risk>, owner: Id, now: int, a: Advice)
    ensures a in RiskAdvice(risks, owner, now) <==> CalledFor(risks, owner, now, a)
  {
    if a in RiskAdvice(risks, owner, now) {
      var i := AdviceHasCall(risks, owner, now, a);
    }
    if i: nat :| FirstCall(risks, a.kind, i) && a == Advice(a.kind, HighPriority, owner, Deadline(risks[i].score, now)) {
      CallHasAdvice(risks, owner, now, a, i);
    }
  }

  /** The advice of an account: for each kind what its first risk of 70 or more calls
      for, and a follow-up in five days for a quote, unless there is a deal risk of 70
      or more. */
  lemma AdviceIsExact(owner: Id, quoted: bool, risks: seq<Risk>, now: int, a: Advice)
    ensures a in AdviceOf(owner, quoted, risks, now)
       <==> || CalledFor(risks, owner, now, a)
            || (quoted && a == Advice(FollowUpQuote, NormalPriority, owner, now + 5 * 86_400)
                && forall r | r in risks && r.kind == DealRisk :: r.score < 70)
  {
    RiskAdviceIff(risks, owner, now, a);
    RiskAdviceKinds(risks, owner, now, AdvanceDeal);
    assert Alarming(risks, AdvanceDeal) <==> exists r :: r in risks && r.kind == DealRisk && r.score >= 70;
  }
}

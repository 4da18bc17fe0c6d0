/** The revenue schedule of a contract: on which dates it is recognized and how
    its amount is split over them. */
module RevenueSchedule {
  import opened Wrappers
  import opened Calendar
  import opened Sums

  const MAX_SCHEDULE_ENTRIES := 600

  /** What normalizeScheduleType leaves behind; a name it would refuse is Unknown. */
  datatype ScheduleType = OneTime | Monthly | Quarterly | Annual | Unknown(name: string)

  datatype ScheduleError =
    | StartRequired
    | EndBeforeStart
    | EndRequired
    | InvalidType
    | TooLong
    | NoDate

  function Step(kind: ScheduleType): nat {
    match kind
    case Monthly => 1
    case Quarterly => 3
    case Annual => 12
    case _ => 0
  }

  /** The n-th date of a recurring schedule, always computed from the anchor so
      that a short month does not shorten the months after it. */
  function Occurrence(start: Date, step: nat, n: nat): Date {
    AddMonthsClamped(start, n * step)
  }

  function Occurrences(start: Date, step: nat, n: nat): seq<Date> {
    seq(n, i requires 0 <= i => Occurrence(start, step, i))
  }

  lemma StepsIncrease(step: nat, m: nat, n: nat)
    requires step > 0 && m < n
    ensures m * step < n * step
  {
  }

  lemma OccurrencesIncrease(start: Date, step: nat, m: nat, n: nat)
    requires start.Valid() && step > 0 && m < n
    ensures Occurrence(start, step, m).Before(Occurrence(start, step, n))
  {
    StepsIncrease(step, m, n);
    ClampedIsLatest(start, m * step);
    ClampedIsLatest(start, n * step);
    MonthIndexIsInjective(Occurrence(start, step, m), Occurrence(start, step, n));
  }

  lemma FirstOccurrenceIsStart(start: Date, step: nat)
    requires start.Valid()
    ensures Occurrence(start, step, 0) == start
  {
  }

  predicate Fits(start: Date, step: nat, end: Date, n: nat) {
    !end.Before(Occurrence(start, step, n))
  }

  lemma NoneFitsAfter(start: Date, step: nat, end: Date, n: nat)
    requires start.Valid() && step > 0 && !Fits(start, step, end, n)
    ensures forall m: nat | n <= m :: !Fits(start, step, end, m)
  {
    forall m: nat | n < m
      ensures !Fits(start, step, end, m)
    {
      OccurrencesIncrease(start, step, n, m);
    }
  }

  /** What an answer for this period has to be, stated on the whole sequence of
      occurrences rather than on the loop that walks it. */
  ghost predicate IsSchedule(start: Option<Date>, end: Option<Date>, kind: ScheduleType,
                             r: Result<seq<Date>, ScheduleError>)
  {
    if start.None? then r == Err(StartRequired)
    else if end.Some? && end.value.Before(start.value) then r == Err(EndBeforeStart)
    else if kind == OneTime then r == Ok([start.value])
    else if end.None? then r == Err(EndRequired)
    else if Step(kind) == 0 then r == Err(InvalidType)
    else
      var step := Step(kind);
      if Fits(start.value, step, end.value, MAX_SCHEDULE_ENTRIES) then r == Err(TooLong)
      else
        && r.Ok?
        && r.value == Occurrences(start.value, step, |r.value|)
        && forall n: nat :: Fits(start.value, step, end.value, n) <==> n < |r.value|
  }

  method BuildScheduleDates(start: Option<Day>, end: Option<Day>, kind: ScheduleType)
    returns (r: Result<seq<Date>, ScheduleError>)
    ensures IsSchedule(start, end, kind, r)
    ensures r.Ok? ==> 1 <= |r.value| <= MAX_SCHEDULE_ENTRIES && r.value[0] == start.value
    ensures r != Err(NoDate)
  {
    if start.None? {
      return Err(StartRequired);
    }
    if end.Some? && end.value.Before(start.value) {
      return Err(EndBeforeStart);
    }
    if kind == OneTime {
      return Ok([start.value]);
    }
    if end.None? {
      return Err(EndRequired);
    }
    var step := Step(kind);
    if step == 0 {
      return Err(InvalidType);
    }
    FirstOccurrenceIsStart(start.value, step);
    var dates := [];
    var n := 0;
    while true
      invariant n == |dates| <= MAX_SCHEDULE_ENTRIES
      invariant dates == Occurrences(start.value, step, n)
      invariant forall m: nat | m < n :: Fits(start.value, step, end.value, m)
      decreases MAX_SCHEDULE_ENTRIES - n
    {
      var date := AddMonthsClamped(start.value, n * step);
      if end.value.Before(date) {
        break;
      }
      if |dates| == MAX_SCHEDULE_ENTRIES {
        return Err(TooLong);
      }
      dates := dates + [date];
      n := n + 1;
    }
    NoneFitsAfter(start.value, step, end.value, n);
    if |dates| == 0 {
      return Err(NoDate);
    }
    return Ok(dates);
  }

  /** One period and one type have one schedule. */
  lemma ScheduleIsUnique(start: Option<Date>, end: Option<Date>, kind: ScheduleType,
                         a: Result<seq<Date>, ScheduleError>, b: Result<seq<Date>, ScheduleError>)
    requires IsSchedule(start, end, kind, a) && IsSchedule(start, end, kind, b)
    ensures a == b
  {
    if a.Ok? && b.Ok? && kind != OneTime {
      var step := Step(kind);
      var m, n := |a.value|, |b.value|;
      assert Fits(start.value, step, end.value, m) <==> m < n;
      assert Fits(start.value, step, end.value, n) <==> n < m;
    }
  }

  /** The number of occurrences that fit, counted up from the n-th. */
  ghost function CountFitting(start: Date, step: nat, end: Date, n: nat): (count: nat)
    requires start.Valid() && step > 0 && n <= MAX_SCHEDULE_ENTRIES
    requires !Fits(start, step, end, MAX_SCHEDULE_ENTRIES)
    requires forall m: nat | m < n :: Fits(start, step, end, m)
    ensures forall m: nat :: Fits(start, step, end, m) <==> m < count
    decreases MAX_SCHEDULE_ENTRIES - n
  {
    if Fits(start, step, end, n) then
      CountFitting(start, step, end, n + 1)
    else
      NoneFitsAfter(start, step, end, n);
      n
  }

  /** The schedule itself, for models that need to name it. */
  ghost function ScheduleOf(start: Option<Day>, end: Option<Day>, kind: ScheduleType): (r: Result<seq<Date>,
        ScheduleError>)
    ensures IsSchedule(start, end, kind, r)
    ensures r.Ok? ==> |r.value| >= 1
  {
    if start.None? then Err(StartRequired)
    else if end.Some? && end.value.Before(start.value) then Err(EndBeforeStart)
    else if kind == OneTime then Ok([start.value])
    else if end.None? then Err(EndRequired)
    else if Step(kind) == 0 then Err(InvalidType)
    else if Fits(start.value, Step(kind), end.value, MAX_SCHEDULE_ENTRIES) then Err(TooLong)
    else
      FirstOccurrenceIsStart(start.value, Step(kind));
      assert Fits(start.value, Step(kind), end.value, 0);
      Ok(Occurrences(start.value, Step(kind), CountFitting(start.value, Step(kind), end.value, 0)))
  }

  /** Every date of a schedule lies in the contract period, in strict order. */
  lemma ScheduleStaysInPeriod(start: Date, end: Option<Date>, kind: ScheduleType, dates: seq<Date>)
    requires start.Valid() && IsSchedule(Some(start), end, kind, Ok(dates))
    ensures forall i, j | 0 <= i < j < |dates| :: dates[i].Before(dates[j])
    ensures forall i | 0 <= i < |dates| :: dates[i].Valid() && !dates[i].Before(start)
    ensures end.Some? ==> forall i | 0 <= i < |dates| :: !end.value.Before(dates[i])
  {
    if kind != OneTime {
      var step := Step(kind);
      FirstOccurrenceIsStart(start, step);
      forall i, j | 0 <= i < j < |dates|
        ensures dates[i].Before(dates[j])
      {
        OccurrencesIncrease(start, step, i, j);
      }
      forall i | 0 <= i < |dates|
        ensures dates[i].Valid() && !dates[i].Before(start) && !end.value.Before(dates[i])
      {
        ClampedIsLatest(start, i * step);
        assert Fits(start, step, end.value, i);
        if i > 0 {
          OccurrencesIncrease(start, step, 0, i);
        }
      }
    }
  }

  /** Months from one date of a recurring schedule to the next. */
  function MonthsBetween(kind: ScheduleType): nat
    requires kind == Monthly || kind == Quarterly || kind == Annual
  {
    if kind == Monthly then 1 else if kind == Quarterly then 3 else 12
  }

  /** date is the latest day of its month that is no later in the month than the start,
      and lies this many months after it. */
  ghost predicate FallsIn(start: Date, months: int, date: Date) {
    && date.Valid() && date.MonthIndex() == start.MonthIndex() + months && date.day <= start.day
    && forall d: Date | d.Valid() && d.MonthIndex() == date.MonthIndex() && d.day <= start.day :: d == date || d.Before(date)
  }

  /** A recurring schedule has one date a month, quarter or year, from the start up to
      the last one that is not after the end; a type of another name has none. */
  lemma ScheduleRecurs(start: Date, end: Date, kind: ScheduleType, dates: seq<Date>)
    requires start.Valid() && IsSchedule(Some(start), Some(end), kind, Ok(dates)) && kind != OneTime
    ensures !kind.Unknown?
    ensures forall n | 0 <= n < |dates| :: FallsIn(start, n * MonthsBetween(kind), dates[n])
    ensures forall next: Date | FallsIn(start, |dates| * MonthsBetween(kind), next) :: end.Before(next)
  {
    var step := MonthsBetween(kind);
    forall n | 0 <= n < |dates|
      ensures FallsIn(start, n * step, dates[n])
    {
      ClampedIsLatest(start, n * step);
    }
    ClampedIsLatest(start, |dates| * step);
    assert !Fits(start, step, end, |dates|);
    forall next: Date | FallsIn(start, |dates| * step, next)
      ensures end.Before(next)
    {
      var last := Occurrence(start, step, |dates|);
      assert next == last || next.Before(last);
      assert last == next || last.Before(next);
    }
  }

  // ---- amounts --------------------------------------------------------------

  /** Integer division and remainder as Go has them: toward zero. */
  function Quot(a: int, b: nat): int
    requires b > 0
  {
    if a >= 0 then a / b else -((-a) / b)
  }

  function Rem(a: int, b: nat): int
    requires b > 0
  {
    a - b * Quot(a, b)
  }

  function Part(total: int, count: nat, i: nat): int
    requires count > 0
  {
    Quot(total, count) + if i < Rem(total, count) then 1 else 0
  }

  function Parts(total: int, count: nat): seq<int> {
    seq(count, i requires 0 <= i < count => Part(total, count, i))
  }

  /** A count of zero or less yields no array at all, here the empty one. */
  method SplitScheduleAmount(totalCents: int, count: int) returns (amounts: array<int>)
    ensures fresh(amounts)
    ensures amounts[..] == if count <= 0 then [] else Parts(totalCents, count)
  {
    if count <= 0 {
      amounts := new int[0];
      return;
    }
    var base := Quot(totalCents, count);
    var remainder := Rem(totalCents, count);
    amounts := new int[count];
    for i := 0 to count
      invariant forall k | 0 <= k < i :: amounts[k] == Part(totalCents, count, k)
    {
      var cents := base;
      if i < remainder {
        cents := cents + 1;
      }
      amounts[i] := cents;
    }
    assert amounts[..] == Parts(totalCents, count);
  }

  lemma TimesSuccessor(n: nat, q: int)
    ensures (n + 1) * q == n * q + q
  {
  }

  /** The first r entries carry one cent more than the rest. */
  lemma {:induction false} SumOfEvenParts(parts: seq<int>, q: int, r: int)
    requires forall i | 0 <= i < |parts| :: parts[i] == q + if i < r then 1 else 0
    ensures Sum(parts) == |parts| * q + if r <= 0 then 0 else if |parts| < r then |parts| else r
  {
    if parts != [] {
      var n := |parts| - 1;
      SumOfEvenParts(parts[..n], q, r);
      SumOfLast(parts);
      TimesSuccessor(n, q);
    }
  }

  lemma RemainderBounds(total: int, count: nat)
    requires count > 0
    ensures total >= 0 ==> 0 <= Rem(total, count) < count
    ensures total < 0 ==> 0 < Rem(total, count) + count <= count
  {
  }

  /** The parts add up to the total, for every total a contract may have. A
      negative total divided toward zero loses its remainder, so there the parts
      add up exactly when the count divides the total. */
  lemma SplitPreservesTotal(total: int, count: nat)
    requires count > 0
    ensures Sum(Parts(total, count)) == total <==> total >= 0 || Rem(total, count) == 0
  {
    RemainderBounds(total, count);
    SumOfEvenParts(Parts(total, count), Quot(total, count), Rem(total, count));
  }

  lemma SplitIsEven(total: int, count: nat, i: nat, j: nat)
    requires i <= j < count
    ensures Parts(total, count)[j] <= Parts(total, count)[i] <= Parts(total, count)[j] + 1
  {
  }
}

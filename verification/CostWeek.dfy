/** The weekly cycle of the daily series (dayFactor in internal/adapters/awssim/cost.go). */
module CostWeek {
  import opened Calendar
  import opened CostBilled
  import opened CostIngest
  import opened CostSeries
  import opened CostShape
  import opened Money
  import opened Reconciliation

  predicate IsWeekend(day: int) { (day + 4) % 7 == 6 || (day + 4) % 7 == 0 }

  /** What us, one value a day from day number first on, come to on weekend days, or on the others. */
  function Share(us: seq<real>, first: int, weekend: bool): real {
    if us == [] then 0.0
    else if IsWeekend(first + |us| - 1) == weekend then Share(us[..|us|-1], first, weekend) + us[|us|-1]
    else Share(us[..|us|-1], first, weekend)
  }

  /** Item k's usage in dollars on each of the first n days. */
  function Usages(items: seq<LineItem>, records: seq<Record>, k: nat, n: nat): (us: seq<real>)
    requires forall d: nat | d < n :: At(items, d, k) < |records|
    ensures |us| == n && forall d: nat | d < n :: us[d] == records[At(items, d, k)].usage
  {
    seq(n, d requires 0 <= d < n => records[At(items, d, k)].usage)
  }

  /** Its billed amounts, in micro-dollars. */
  function Amounts(items: seq<LineItem>, records: seq<Record>, k: nat, n: nat): (us: seq<real>)
    requires forall d: nat | d < n :: At(items, d, k) < |records|
    ensures |us| == n && forall d: nat | d < n :: us[d] == records[At(items, d, k)].amount as real
  {
    seq(n, d requires 0 <= d < n => records[At(items, d, k)].amount as real)
  }

  // ---- weighing days ---------------------------------------------------------------------

  /** What a day of the given weekday can come to, give or take e, when an average day is worth q. */
  predicate Typical(weekday: int, u: real, q: real, e: real) {
    if weekday == 6 || weekday == 0 then u >= 1.1224 * q - e
    else if weekday == 5 then u <= 1.1664 * q + e
    else u <= 1.026 * q + e
  }

  /** Five times the least a weekend day comes to, or minus twice the most another day does. */
  function DayWeight(weekday: int, q: real, e: real): real {
    if weekday == 6 || weekday == 0 then 5.612 * q - 5.0 * e
    else if weekday == 5 then -2.3328 * q - 2.0 * e
    else -2.052 * q - 2.0 * e
  }

  function NextDay(weekday: int): int { if weekday == 6 then 0 else weekday + 1 }

  /** The weekday n days on. */
  function After(weekday: int, n: nat): int {
    if n == 0 then weekday else NextDay(After(weekday, n - 1))
  }

  /** The weights of n days, the first of them on the given weekday. */
  function WeightFrom(weekday: int, n: nat, q: real, e: real): real {
    if n == 0 then 0.0 else WeightFrom(weekday, n - 1, q, e) + DayWeight(After(weekday, n - 1), q, e)
  }

  lemma {:induction false} AfterDay(first: int, n: nat)
    ensures After((first + 4) % 7, n) == (first + n + 4) % 7
  {
    if n > 0 { AfterDay(first, n - 1); }
  }

  lemma {:induction false} WeightAppend(weekday: int, m: nat, n: nat, q: real, e: real)
    ensures After(weekday, m + n) == After(After(weekday, m), n)
    ensures WeightFrom(weekday, m + n, q, e) == WeightFrom(weekday, m, q, e) + WeightFrom(After(weekday, m), n, q, e)
  {
    if n > 0 { WeightAppend(weekday, m, n - 1, q, e); }
  }

  /** The first n days of a week that starts on a Sunday. */
  lemma {:induction false} FromSunday(n: nat, q: real, e: real)
    requires n <= 7
    ensures After(0, n) == if n < 7 then n else 0
    ensures WeightFrom(0, n, q, e) ==
      if n == 0 then 0.0
      else if n <= 5 then 5.612 * q - 5.0 * e - (n - 1) as real * 2.052 * q - (n - 1) as real * 2.0 * e
      else if n == 6 then -4.9288 * q - 15.0 * e
      else 0.6832 * q - 20.0 * e
  {
    if n > 0 {
      FromSunday(n - 1, q, e);
    }
  }

  /** Whatever day a week starts on, it weighs the same. */
  lemma OneWeek(weekday: int, q: real, e: real)
    requires 0 <= weekday < 7
    ensures After(weekday, 7) == weekday
    ensures WeightFrom(weekday, 7, q, e) == 0.6832 * q - 20.0 * e
  {
    FromSunday(weekday, q, e);
    FromSunday(7, q, e);
    WeightAppend(0, weekday, 7 - weekday, q, e);
    WeightAppend(weekday, 7 - weekday, weekday, q, e);
  }

  lemma {:induction false} WeeksWeight(weekday: int, weeks: nat, q: real, e: real)
    requires 0 <= weekday < 7 && 0.6832 * q > 20.0 * e
    ensures WeightFrom(weekday, 7 * weeks, q, e) >= 0.0
    ensures weeks > 0 ==> WeightFrom(weekday, 7 * weeks, q, e) > 0.0
  {
    if weeks > 0 {
      WeeksWeight(weekday, weeks - 1, q, e);
      OneWeek(weekday, q, e);
      WeightAppend(weekday, 7, 7 * (weeks - 1), q, e);
    }
  }

  lemma {:induction false} ShareBalance(us: seq<real>, first: int, q: real, e: real)
    requires forall d | 0 <= d < |us| :: Typical((first + d + 4) % 7, us[d], q, e)
    ensures WeightFrom((first + 4) % 7, |us|, q, e) <= 5.0 * Share(us, first, true) - 2.0 * Share(us, first, false)
  {
    if us != [] {
      ShareBalance(us[..|us|-1], first, q, e);
      AfterDay(first, |us| - 1);
    }
  }

  lemma WeeksBalance(us: seq<real>, first: int, weeks: nat, q: real, e: real)
    requires |us| == 7 * weeks && weeks > 0 && 0.6832 * q > 20.0 * e
    requires forall d | 0 <= d < |us| :: Typical((first + d + 4) % 7, us[d], q, e)
    ensures 5.0 * Share(us, first, true) > 2.0 * Share(us, first, false)
  {
    ShareBalance(us, first, q, e);
    WeeksWeight((first + 4) % 7, weeks, q, e);
  }

  // ---- one line's days -------------------------------------------------------------------

  lemma TypicalFactor(day: int, s: Stream, p: nat, q: real)
    requires UnitInterval(s) && q > 0.0
    ensures Typical((day + 4) % 7, Factor(true, Weekday(MidnightOf(day)), s, p) * q, q, 0.0)
  {
    var f := Factor(true, Weekday(MidnightOf(day)), s, p);
    FactorBounds(true, Weekday(MidnightOf(day)), s, p);
    Ordered(f, Seasonal(Weekday(MidnightOf(day))) * 1.08, q);
    Ordered(Seasonal(Weekday(MidnightOf(day))) * 0.92, f, q);
  }

  lemma TypicalRecord(li: LineItem, day: int, spike: bool, s: Stream, p: nat, scale: real, q: real)
    requires UnitInterval(s) && li.monthly > 0 && li.variable && !li.natProcessed && scale > 0.0
    requires q == Base(li) * scale
    ensures Typical((day + 4) % 7, Rescaled(RecordOf(li, MidnightOf(day), spike, s, p), scale).usage, q, 0.0)
  {
    assert Base(li) > 0.0;
    PositiveProduct(Base(li), scale);
    TypicalFactor(day, s, p, q);
    Reorder(Base(li), Factor(true, Weekday(MidnightOf(day)), s, p), scale);
  }

  lemma Reorder(base: real, factor: real, scale: real)
    ensures base * factor * scale == factor * (base * scale)
  {
  }

  lemma PositiveProduct(a: real, b: real)
    requires a > 0.0 && b > 0.0
    ensures a * b > 0.0
  {
  }

  /** An average day's worth of a line, whatever the draws. */
  lemma AverageDay(li: LineItem, s: Stream, scale: real) returns (q: real)
    requires UnitInterval(s) && li.monthly > 0 && li.variable && !li.natProcessed && scale > 0.0
    ensures q > 0.0 && (scale >= 0.16865 ==> q * MICROS_PER_UNIT >= 0.00554 * li.monthly as real)
    ensures forall day, spike, p {:trigger RecordOf(li, MidnightOf(day), spike, s, p)} ::
      Typical((day + 4) % 7, Rescaled(RecordOf(li, MidnightOf(day), spike, s, p), scale).usage, q, 0.0)
  {
    q := Base(li) * scale;
    assert Base(li) > 0.0;
    PositiveProduct(Base(li), scale);
    if scale >= 0.16865 { Ordered(0.16865, scale, Base(li)); }
    forall day, spike, p
      ensures Typical((day + 4) % 7, Rescaled(RecordOf(li, MidnightOf(day), spike, s, p), scale).usage, q, 0.0)
    {
      TypicalRecord(li, day, spike, s, p, scale, q);
    }
  }

  lemma TypicalUsages(items: seq<LineItem>, p: Period, total: int, s: Stream, scale: real, k: nat,
          n: nat)
    returns (q: real)
    requires Billable(items) && UnitInterval(s) && ScaledBy(items, p, total, s, scale) && n <= DayCount(p)
    requires k < |items| && items[k].variable && !items[k].natProcessed
    ensures q > 0.0 && (scale >= 0.16865 ==> q * MICROS_PER_UNIT >= 0.00554 * items[k].monthly as real)
    ensures forall d: nat | d < n :: At(items, d, k) < |Series(items, p, total, s)|
    ensures var us := Usages(items, Series(items, p, total, s), k, n);
      forall d | 0 <= d < n :: Typical((DayOf(p.start) + d + 4) % 7, us[d], q, 0.0)
  {
    q := AverageDay(items[k], s, scale);
    forall d: nat | d < n
      ensures At(items, d, k) < |Series(items, p, total, s)|
      ensures Typical((DayOf(p.start) + d + 4) % 7, Series(items, p, total, s)[At(items, d, k)].usage, q, 0.0)
    {
      SeriesAt(items, p, total, s, scale, d, k);
    }
  }

  /** Over a period's first weeks, however many are whole, and so with two weekend days to five
      others, every traffic-driven line but the NAT-processed ones is worth more on an average weekend
      day than on an average other day, whatever the stream and whichever day the weeks start. */
  lemma WeekendHeavier(items: seq<LineItem>, p: Period, total: int, s: Stream, k: nat, weeks: nat)
    requires Billable(items) && UnitInterval(s) && total > 0 && weeks > 0 && DayCount(p) >= 7 * weeks
    requires k < |items| && items[k].variable && !items[k].natProcessed
    ensures forall d: nat | d < 7 * weeks :: At(items, d, k) < |Series(items, p, total, s)|
    ensures var us := Usages(items, Series(items, p, total, s), k, 7 * weeks);
      5.0 * Share(us, DayOf(p.start), true) > 2.0 * Share(us, DayOf(p.start), false)
  {
    var scale := SeriesScale(items, p, total, s);
    var q := TypicalUsages(items, p, total, s, scale, k, 7 * weeks);
    WeeksBalance(Usages(items, Series(items, p, total, s), k, 7 * weeks), DayOf(p.start), weeks, q, 0.0);
  }

  lemma TypicalNear(weekday: int, u: real, a: real, q: real)
    requires Typical(weekday, u, q, 0.0) && Within(a, u * MICROS_PER_UNIT, 1.0721)
    ensures Typical(weekday, a, q * MICROS_PER_UNIT, 1.0721)
  {
  }

  /** The same for what is billed, on a line worth at least 5700 micros a month, about half a cent. */
  lemma {:induction false} BilledWeekendHeavier(items: seq<LineItem>, p: Period, s: Stream, k: nat, weeks: nat)
    requires Billable(items) && UnitInterval(s) && weeks > 0 && DayCount(p) >= 7 * weeks
    requires k < |items| && items[k].variable && !items[k].natProcessed && items[k].monthly >= 5700
    ensures forall d: nat | d < 7 * weeks :: At(items, d, k) < |Series(items, p, MonthlySum(items), s)|
    ensures var us := Amounts(items, Series(items, p, MonthlySum(items), s), k, 7 * weeks);
      5.0 * Share(us, DayOf(p.start), true) > 2.0 * Share(us, DayOf(p.start), false)
  {
    var records := Series(items, p, MonthlySum(items), s);
    var scale := SeriesNear(items, p, s);
    var q := TypicalUsages(items, p, MonthlySum(items), s, scale, k, 7 * weeks);
    var us, billed := Usages(items, records, k, 7 * weeks), Amounts(items, records, k, 7 * weeks);
    forall d | 0 <= d < 7 * weeks
      ensures Typical((DayOf(p.start) + d + 4) % 7, billed[d], q * MICROS_PER_UNIT, 1.0721)
    {
      assert NearMicros(records[At(items, d, k)]);
      TypicalNear((DayOf(p.start) + d + 4) % 7, us[d], billed[d], q);
    }
    WeeksBalance(billed, DayOf(p.start), weeks, q * MICROS_PER_UNIT, 1.0721);
  }

  /** Of the estate: every traffic-driven resource with a price has a line on its id, in its own
      dimensions and at that price, which weekends make heavier. */
  lemma TrafficHeavier(estate: seq<Resource>, items: seq<LineItem>, p: Period, s: Stream, r: Resource, weeks: nat)
    returns (k: nat)
    requires Arranged(items, estate) && UnitInterval(s) && TotalMonthlyCost(estate) > 0
    requires weeks > 0 && DayCount(p) >= 7 * weeks
    requires r in estate && r.Billed? && r.variable && r.cost > 0
    ensures k < |items| && items[k] == LineItem(r.id, r.dims, r.cost, true, false)
    ensures var records := Series(items, p, TotalMonthlyCost(estate), s);
      && (forall d: nat | d < 7 * weeks :: At(items, d, k) < |records|)
      && var us := Usages(items, records, k, 7 * weeks);
         5.0 * Share(us, DayOf(p.start), true) > 2.0 * Share(us, DayOf(p.start), false)
  {
    k := PlaceOf(estate, items, r, LineItem(r.id, r.dims, r.cost, true, false));
    WeekendHeavier(items, p, TotalMonthlyCost(estate), s, k, weeks);
  }
}

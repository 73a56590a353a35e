/** What the rescaled daily series promises: it adds up to the estate's own pro-rated total within
    a stated rounding error. */
module Reconciliation {
  import opened Calendar
  import opened CostIngest
  import opened CostSeries
  import opened Money
  import opened Order

  function AmountSum(records: seq<Record>): int {
    if records == [] then 0 else AmountSum(records[..|records|-1]) + records[|records|-1].amount
  }

  /** A rescaled record's unrounded amount, in micro-dollars. */
  function Exact(r: Record, scale: real): real {
    r.usage * MICROS_PER_UNIT * scale
  }

  function ExactSum(records: seq<Record>, scale: real): real {
    if records == [] then 0.0 else ExactSum(records[..|records|-1], scale) + Exact(records[|records|-1], scale)
  }

  /** n times e. */
  function Budget(n: nat, e: real): real {
    if n == 0 then 0.0 else Budget(n - 1, e) + e
  }

  /** Each amount is its record's usage, rounded once. */
  ghost predicate RoundedOnce(records: seq<Record>) {
    forall r | r in records :: r.amount == USDollars(r.usage)
  }

  predicate Within(x: real, y: real, error: real) { -error <= x - y <= error }

  // ---- arithmetic -------------------------------------------------------------

  lemma Distribute(a: real, b: real, f: real)
    ensures (a + b) * f == a * f + b * f
  {
  }

  lemma Ordered(a: real, b: real, f: real)
    requires a <= b && f >= 0.0
    ensures a * f <= b * f
  {
    assert (b - a) * f >= 0.0;
    Distribute(b, -a, f);
  }

  lemma {:induction false} BudgetIs(n: nat, e: real)
    ensures Budget(n, e) == n as real * e
  {
    if n > 0 {
      BudgetIs(n - 1, e);
      Distribute((n - 1) as real, 1.0, e);
    }
  }

  // ---- the rounding bound --------------------------------------------------------

  lemma RescaleInit(records: seq<Record>, scale: real)
    requires records != []
    ensures Rescale(records, scale)[..|records|-1] == Rescale(records[..|records|-1], scale)
    ensures Rescale(records, scale)[|records|-1] == Rescaled(records[|records|-1], scale)
  {
  }

  lemma {:induction false} RescaledUsage(records: seq<Record>, scale: real)
    ensures UsageSum(Rescale(records, scale)) == UsageSum(records) * scale
  {
    if records != [] {
      var rest, r := records[..|records|-1], records[|records|-1];
      RescaleInit(records, scale);
      RescaledUsage(rest, scale);
      Distribute(UsageSum(rest), r.usage, scale);
    }
  }

  lemma {:induction false} ExactSumIs(records: seq<Record>, scale: real)
    ensures ExactSum(records, scale) == UsageSum(records) * scale * MICROS_PER_UNIT
  {
    if records != [] {
      var rest, r := records[..|records|-1], records[|records|-1];
      ExactSumIs(rest, scale);
      Distribute(UsageSum(rest), r.usage, scale);
    }
  }

  /** However large the amount, a record is out by no more than (scale + 1) / 2 micros. */
  lemma OneRecord(r: Record, scale: real)
    requires scale >= 0.0 && r.amount == USDollars(r.usage)
    ensures Within(Rescaled(r, scale).amount as real, Exact(r, scale), (scale + 1.0) / 2.0)
  {
    ScaleError(r.usage * MICROS_PER_UNIT, scale);
  }

  lemma {:induction false} RescaleErrorBound(records: seq<Record>, scale: real, e: real)
    requires scale >= 0.0 && RoundedOnce(records) && e == (scale + 1.0) / 2.0
    ensures Within(AmountSum(Rescale(records, scale)) as real, ExactSum(records, scale), Budget(|records|, e))
  {
    if records != [] {
      var rest := records[..|records|-1];
      RescaleInit(records, scale);
      RescaleErrorBound(rest, scale, e);
      OneRecord(records[|records|-1], scale);
    }
  }

  lemma {:induction false} RawRoundedOnce(items: seq<LineItem>, days: seq<Instant>, spikeDay: int, s: Stream)
    ensures RoundedOnce(Raw(items, days, spikeDay, s))
  {
    if days != [] {
      var d := |days| - 1;
      RawRoundedOnce(items, days[..d], spikeDay, s);
      RowRoundedOnce(items, days[d], d == spikeDay, s, d * Draws(items));
    }
  }

  lemma {:induction false} RowRoundedOnce(items: seq<LineItem>, day: Instant, spike: bool, s: Stream, p: nat)
    ensures RoundedOnce(Row(items, day, spike, s, p))
  {
    if items != [] { RowRoundedOnce(items[..|items|-1], day, spike, s, p); }
  }

  lemma ExactTarget(raw: seq<Record>, target: real, scale: real)
    requires UsageSum(raw) * scale == target
    ensures UsageSum(Rescale(raw, scale)) == target
    ensures ExactSum(raw, scale) == target * MICROS_PER_UNIT
  {
    RescaledUsage(raw, scale);
    ExactSumIs(raw, scale);
  }

  lemma ScaleOf(raw: seq<Record>, target: real) returns (scale: real)
    requires target >= 0.0 && UsageSum(raw) > 0.0
    ensures scale >= 0.0 && UsageSum(raw) * scale == target
    ensures Reconciled(raw, target) == Rescale(raw, scale)
  {
    scale := target / UsageSum(raw);
  }

  /** The reconciliation of any records rounded once: unrounded it is exact, and in micro-dollars
      it is out by at most (scale + 1) / 2 for each record. */
  lemma Reconciles(raw: seq<Record>, target: real) returns (scale: real)
    requires target >= 0.0 && UsageSum(raw) > 0.0 && RoundedOnce(raw)
    ensures scale >= 0.0 && UsageSum(raw) * scale == target
    ensures UsageSum(Reconciled(raw, target)) == target
    ensures Within(AmountSum(Reconciled(raw, target)) as real, target * MICROS_PER_UNIT,
                   Budget(|raw|, (scale + 1.0) / 2.0))
  {
    scale := ScaleOf(raw, target);
    ExactTarget(raw, target, scale);
    RescaleErrorBound(raw, scale, (scale + 1.0) / 2.0);
  }

  // ---- how far the scale can be from one ---------------------------------------------

  /** The month's average day. */
  function BaseSum(items: seq<LineItem>): real {
    if items == [] then 0.0 else BaseSum(items[..|items|-1]) + Base(items[|items|-1])
  }

  predicate Between(x: real, low: real, high: real) { low <= x <= high }

  lemma {:induction false} BaseSumIs(items: seq<LineItem>)
    ensures BaseSum(items) == Units(MonthlySum(items)) / AVERAGE_DAYS_PER_MONTH
  {
    if items != [] { BaseSumIs(items[..|items|-1]); }
  }

  lemma {:induction false} UsageAppend(a: seq<Record>, b: seq<Record>)
    ensures UsageSum(a + b) == UsageSum(a) + UsageSum(b)
  {
    if b == [] {
      assert a + b == a;
    } else {
      UsageAppend(a, b[..|b|-1]);
      assert (a + b)[..|a + b|-1] == a + b[..|b|-1];
    }
  }

  lemma LiftedBounds(li: LineItem, day: Instant, spike: bool, s: Stream, p: nat)
    requires UnitInterval(s)
    ensures Between(Lifted(Factor(li.variable, Weekday(day), s, p), li, spike), 0.874, 5.9292)
  {
    FactorBounds(li.variable, Weekday(day), s, p);
  }

  lemma ProductBounds(base: real, factor: real)
    requires base >= 0.0 && Between(factor, 0.874, 5.9292)
    ensures Between(base * factor, 0.874 * base, 5.9292 * base)
  {
    Ordered(0.874, factor, base);
    Ordered(factor, 5.9292, base);
  }

  lemma RecordBounds(li: LineItem, day: Instant, spike: bool, s: Stream, p: nat)
    requires UnitInterval(s) && li.monthly >= 0
    ensures Between(RecordOf(li, day, spike, s, p).usage, 0.874 * Base(li), 5.9292 * Base(li))
  {
    LiftedBounds(li, day, spike, s, p);
    PricedBounds(li, day, Lifted(Factor(li.variable, Weekday(day), s, p), li, spike));
  }

  lemma PricedBounds(li: LineItem, day: Instant, factor: real)
    requires li.monthly >= 0 && Between(factor, 0.874, 5.9292)
    ensures Between(Priced(li, day, factor).usage, 0.874 * Base(li), 5.9292 * Base(li))
  {
    ProductBounds(Base(li), factor);
  }

  lemma {:induction false} RowBounds(items: seq<LineItem>, day: Instant, spike: bool, s: Stream, p: nat)
    requires UnitInterval(s) && forall li | li in items :: li.monthly >= 0
    ensures Between(UsageSum(Row(items, day, spike, s, p)), 0.874 * BaseSum(items), 5.9292 * BaseSum(items))
  {
    if items != [] {
      var rest, li := items[..|items|-1], items[|items|-1];
      var row, r := Row(rest, day, spike, s, p), RecordOf(li, day, spike, s, p + Draws(rest));
      RowBounds(rest, day, spike, s, p);
      RecordBounds(li, day, spike, s, p + Draws(rest));
      Appended(row, r);
    }
  }

  lemma {:induction false} RawBounds(items: seq<LineItem>, days: seq<Instant>, spikeDay: int, s: Stream)
    requires UnitInterval(s) && forall li | li in items :: li.monthly >= 0
    ensures var whole := Budget(|days|, BaseSum(items));
      Between(UsageSum(Raw(items, days, spikeDay, s)), 0.874 * whole, 5.9292 * whole)
  {
    if days != [] {
      var d := |days| - 1;
      RawBounds(items, days[..d], spikeDay, s);
      RowBounds(items, days[d], d == spikeDay, s, d * Draws(items));
      UsageAppend(Raw(items, days[..d], spikeDay, s), RowOf(items, days[d], d, spikeDay, s));
    }
  }

  lemma TargetIs(items: seq<LineItem>, n: nat)
    ensures Target(MonthlySum(items), n) == Budget(n, BaseSum(items))
  {
    BaseSumIs(items);
    BudgetIs(n, BaseSum(items));
    ProRate(Units(MonthlySum(items)), n as real);
  }

  lemma ProRate(u: real, n: real)
    ensures u * (n / AVERAGE_DAYS_PER_MONTH) == n * (u / AVERAGE_DAYS_PER_MONTH)
  {
  }

  lemma {:induction false} Positive(items: seq<LineItem>)
    requires items != [] && forall li | li in items :: li.monthly > 0
    ensures MonthlySum(items) > 0
  {
    if |items| > 1 { Positive(items[..|items|-1]); }
  }

  lemma {:induction false} BudgetMonotone(n: nat, e: real, f: real)
    requires e <= f
    ensures Budget(n, e) <= Budget(n, f)
    ensures e > 0.0 && n > 0 ==> Budget(n, e) > 0.0
    ensures e >= 0.0 ==> Budget(n, e) >= 0.0
  {
    if n > 0 { BudgetMonotone(n - 1, e, f); }
  }

  lemma ScaleRange(sum: real, scale: real, target: real)
    requires sum * scale == target && target > 0.0 && scale >= 0.0
    requires Between(sum, 0.874 * target, 5.9292 * target)
    ensures Between(scale, 1.0 / 5.9292, 1.0 / 0.874)
  {
    AtMost(0.874, target, sum, scale);
    AtLeast(5.9292, target, sum, scale);
  }

  lemma AtMost(c: real, t: real, sum: real, s: real)
    requires c * t <= sum && sum * s == t && t > 0.0 && s >= 0.0
    ensures c * s <= 1.0
  {
    Ordered(c * t, sum, s);
    Regroup(c, t, s);
    Cancel(t, c * s, 1.0);
  }

  lemma AtLeast(c: real, t: real, sum: real, s: real)
    requires sum <= c * t && sum * s == t && t > 0.0 && s >= 0.0
    ensures c * s >= 1.0
  {
    Ordered(sum, c * t, s);
    Regroup(c, t, s);
    Cancel(t, 1.0, c * s);
  }

  lemma Regroup(c: real, t: real, s: real)
    ensures (c * t) * s == t * (c * s)
  {
  }

  lemma Cancel(t: real, a: real, b: real)
    requires t > 0.0 && t * a <= t * b
    ensures a <= b
  {
    Distribute(b, -a, t);
    PositiveFactor(t, b - a);
  }

  lemma PositiveFactor(t: real, d: real)
    requires t > 0.0
    ensures d < 0.0 ==> t * d < 0.0
  {
  }

  // ---- what Fetch's caller can rely on --------------------------------------------------

  /** A set of records has the estate's total in it: exactly before rounding, and to within 1.0721
      micros a record after. */
  ghost predicate AddsUp(records: seq<Record>, total: int, n: nat) {
    && UsageSum(records) == Target(total, n)
    && Within(AmountSum(records) as real, Target(total, n) * MICROS_PER_UNIT, |records| as real * 1.0721)
  }

  lemma ArrangedItems(items: seq<LineItem>, estate: seq<Resource>)
    requires Arranged(items, estate)
    ensures MonthlySum(items) == MonthlySum(LineItems(estate))
    ensures Billable(items)
  {
    SumPermutes(items, LineItems(estate));
    ItemsBillable(estate);
    forall li | li in items
      ensures li in LineItems(estate)
    {
      assert li in multiset(items) && li in multiset(LineItems(estate));
    }
  }

  lemma {:induction false} SumPermutes(a: seq<LineItem>, b: seq<LineItem>)
    requires multiset(a) == multiset(b)
    ensures MonthlySum(a) == MonthlySum(b)
  {
    if a == [] {
      assert |multiset(b)| == |b| == 0;
    } else {
      var x := a[|a|-1];
      var b1, b2 := PullOut(a, b);
      MonthlySumAppend(b1 + [x], b2);
      MonthlySumAppend(b1, b2);
      assert (b1 + [x])[..|b1|] == b1;
      SumPermutes(a[..|a|-1], b1 + b2);
    }
  }

  /** The last element of a, found in a permutation of a. */
  lemma PullOut<T>(a: seq<T>, b: seq<T>) returns (b1: seq<T>, b2: seq<T>)
    requires multiset(a) == multiset(b) && a != []
    ensures b == b1 + [a[|a|-1]] + b2
    ensures multiset(a[..|a|-1]) == multiset(b1 + b2)
  {
    var x := a[|a|-1];
    assert x in multiset(b);
    var i :| 0 <= i < |b| && b[i] == x;
    b1, b2 := b[..i], b[i+1..];
    assert b == b1 + [x] + b2;
    assert a == a[..|a|-1] + [x];
    CancelOne(multiset(a[..|a|-1]), multiset(b1 + b2), x);
  }

  lemma CancelOne<T>(p: multiset<T>, q: multiset<T>, x: T)
    requires p + multiset{x} == q + multiset{x}
    ensures p == q
  {
    forall e
      ensures p[e] == q[e]
    {
      assert (p + multiset{x})[e] == (q + multiset{x})[e];
    }
  }

  /** For an estate with no negative price, any period, any stream of the unit interval and any
      order sort.Slice leaves equal keys in, the fetched records add up to the estate's own total,
      pro-rated. */
  lemma FetchAddsUp(estate: seq<Resource>, items: seq<LineItem>, p: Period, s: Stream)
    requires Arranged(items, estate) && UnitInterval(s) && forall r | r in estate :: NoCredit(r)
    ensures AddsUp(Series(items, p, TotalMonthlyCost(estate), s), TotalMonthlyCost(estate), DayCount(p))
  {
    ArrangedItems(items, estate);
    ItemsSumToTotal(estate);
    SeriesAddsUp(items, p, s);
  }

  lemma SeriesAddsUp(items: seq<LineItem>, p: Period, s: Stream)
    requires UnitInterval(s) && Billable(items)
    ensures AddsUp(Series(items, p, MonthlySum(items), s), MonthlySum(items), DayCount(p))
  {
    var days := Buckets(p);
    if days == [] || items == [] {
      RawLength(items, days, SpikeDay(|days|), s);
      NoRecords(items, days);
    } else {
      RawAddsUp(items, days, SpikeDay(|days|), s);
    }
  }

  lemma RawAddsUp(items: seq<LineItem>, days: seq<Instant>, spikeDay: int, s: Stream)
    requires UnitInterval(s) && Billable(items)
    requires days != [] && items != []
    ensures AddsUp(Reconciled(Raw(items, days, spikeDay, s), Target(MonthlySum(items), |days|)), MonthlySum(items),
                   |days|)
  {
    RawRoundedOnce(items, days, spikeDay, s);
    RawNearTarget(items, days, spikeDay, s);
    var scale := ScaleNear(Raw(items, days, spikeDay, s), Target(MonthlySum(items), |days|));
    RescaleNear(Raw(items, days, spikeDay, s), scale);
  }

  lemma RawNearTarget(items: seq<LineItem>, days: seq<Instant>, spikeDay: int, s: Stream)
    requires UnitInterval(s) && Billable(items)
    requires days != [] && items != []
    ensures var target := Target(MonthlySum(items), |days|);
      target > 0.0 && Between(UsageSum(Raw(items, days, spikeDay, s)), 0.874 * target, 5.9292 * target)
  {
    Positive(items);
    BaseSumIs(items);
    BudgetMonotone(|days|, BaseSum(items), BaseSum(items));
    RawBounds(items, days, spikeDay, s);
    TargetIs(items, |days|);
  }

  /** Bounds on the raw total bound the scale, and so the rounding error. */
  lemma ScaleNear(raw: seq<Record>, target: real) returns (scale: real)
    requires target > 0.0 && Between(UsageSum(raw), 0.874 * target, 5.9292 * target)
    ensures 0.16865 <= scale && (scale + 1.0) / 2.0 <= 1.0721
    ensures Reconciled(raw, target) == Rescale(raw, scale)
    ensures UsageSum(Rescale(raw, scale)) == target && ExactSum(raw, scale) == target * MICROS_PER_UNIT
  {
    scale := ScaleOf(raw, target);
    ExactTarget(raw, target, scale);
    ErrorRange(UsageSum(raw), scale, target);
  }

  lemma RescaleNear(raw: seq<Record>, scale: real)
    requires RoundedOnce(raw) && 0.0 <= scale && (scale + 1.0) / 2.0 <= 1.0721
    ensures Within(AmountSum(Rescale(raw, scale)) as real, ExactSum(raw, scale), |raw| as real * 1.0721)
  {
    RescaleErrorBound(raw, scale, (scale + 1.0) / 2.0);
    BudgetMonotone(|raw|, (scale + 1.0) / 2.0, 1.0721);
    BudgetIs(|raw|, 1.0721);
  }

  lemma ErrorRange(sum: real, scale: real, target: real)
    requires sum * scale == target && target > 0.0 && scale >= 0.0
    requires Between(sum, 0.874 * target, 5.9292 * target)
    ensures 0.16865 <= scale && (scale + 1.0) / 2.0 <= 1.0721
  {
    ScaleRange(sum, scale, target);
  }

  lemma NoRecords(items: seq<LineItem>, days: seq<Instant>)
    requires days == [] || items == []
    ensures |days| * |items| == 0 && Target(MonthlySum(items), |days|) == 0.0
  {
  }

  /** A tenth of a percent of the pro-rated total, whenever the average record is worth at least
      1073 micro-dollars. */
  lemma TenthOfTarget(records: seq<Record>, total: int, n: nat)
    requires AddsUp(records, total, n) && Target(total, n) * MICROS_PER_UNIT >= |records| as real * 1073.0
    ensures var exact := Target(total, n) * MICROS_PER_UNIT;
      Within(AmountSum(records) as real, exact, exact * 0.001)
  {
  }

  /** Period.Days. */
  function Days(p: Period): real { (p.end - p.start) as real / DAY as real }

  /** The buckets count the period's own days exactly when it does not run backwards and holds a
      whole number of them. */
  lemma DaysAgreeIff(p: Period)
    ensures DayCount(p) as real == Days(p) <==> p.start <= p.end && (p.end - p.start) % DAY == 0
  {
    WholeDays(p.end - p.start, DayCount(p));
  }

  lemma WholeDays(span: int, n: nat)
    ensures n as real == span as real / DAY as real <==> span == n * DAY
  {
    if n as real == span as real / DAY as real {
      assert span as real == (n * DAY) as real;
    }
  }

  /** The tolerance the program's own test allows, a tenth of a percent of the total pro-rated to
      Period.Days, over periods of whole days. */
  lemma WithinTenthOfAPercent(records: seq<Record>, total: int, p: Period)
    requires AddsUp(records, total, DayCount(p))
    requires p.start <= p.end && (p.end - p.start) % DAY == 0
    requires Target(total, DayCount(p)) * MICROS_PER_UNIT >= |records| as real * 1073.0
    ensures var expected := Units(total) * (Days(p) / AVERAGE_DAYS_PER_MONTH) * MICROS_PER_UNIT;
      Within(AmountSum(records) as real, expected, expected * 0.001)
  {
    DaysAgreeIff(p);
    TenthOfTarget(records, total, DayCount(p));
  }

  /** The comment at the head of the file says the records reconcile exactly. In micro-dollars they
      cannot, for most estates and periods: the average month has 487 sixteenths of a day, and the
      pro-rated total is a whole number of micros only when 487 divides total times days. */
  lemma ExactOnlyIf(records: seq<Record>, total: int, n: nat)
    requires AmountSum(records) as real == Target(total, n) * MICROS_PER_UNIT
    ensures total * n % 487 == 0
  {
    var sum, product := AmountSum(records), total * n;
    TargetMicros(total, n);
    assert sum * 487 == product * 16;
    assert product == 487 * (274 * sum - 9 * product);
  }

  lemma TargetMicros(total: int, n: nat)
    ensures Target(total, n) * MICROS_PER_UNIT * 487.0 == (total * n) as real * 16.0
  {
    Spread(total as real, n as real);
    assert total as real * n as real == (total * n) as real;
  }

  lemma Spread(t: real, n: real)
    ensures t / MICROS_PER_UNIT * (n / AVERAGE_DAYS_PER_MONTH) * MICROS_PER_UNIT * 487.0 == t * n * 16.0
  {
  }

  // ---- no condition on the total and the days decides it ----------------------------------------

  /** What flat lines bill on a day without jitter. */
  function DailySum(items: seq<LineItem>): int {
    if items == [] then 0 else DailySum(items[..|items|-1]) + USDollars(Base(items[|items|-1]))
  }

  ghost predicate Flat(items: seq<LineItem>) {
    forall li | li in items :: !li.variable && !li.natProcessed && li.monthly > 0
  }

  lemma FlatRecord(li: LineItem, day: Instant, p: nat)
    requires !li.variable && !li.natProcessed
    ensures var r := RecordOf(li, day, false, Steady(0.5), p); r.usage == Base(li) && r.amount == USDollars(Base(li))
  {
    assert Factor(false, Weekday(day), Steady(0.5), p) == 1.0;
  }

  lemma {:induction false} FlatRow(items: seq<LineItem>, day: Instant, p: nat)
    requires Flat(items)
    ensures UsageSum(Row(items, day, false, Steady(0.5), p)) == BaseSum(items)
    ensures AmountSum(Row(items, day, false, Steady(0.5), p)) == DailySum(items)
  {
    if items != [] {
      var rest, li := items[..|items|-1], items[|items|-1];
      FlatRow(rest, day, p);
      FlatRecord(li, day, p + Draws(rest));
    }
  }

  lemma {:induction false} RescaleByOne(records: seq<Record>)
    ensures AmountSum(Rescale(records, 1.0)) == AmountSum(records)
  {
    if records != [] {
      RescaleInit(records, 1.0);
      RescaleByOne(records[..|records|-1]);
      RoundInteger(records[|records|-1].amount);
    }
  }

  lemma OneRow(items: seq<LineItem>, day: Instant, s: Stream)
    ensures Raw(items, [day], -1, s) == Row(items, day, false, s, 0)
  {
    assert Raw(items, [day][..0], -1, s) == [];
    assert 0 * Draws(items) == 0;
  }

  lemma NoRescale(raw: seq<Record>, target: real)
    requires UsageSum(raw) == target > 0.0
    ensures AmountSum(Reconciled(raw, target)) == AmountSum(raw)
  {
    assert target / UsageSum(raw) == 1.0;
    RescaleByOne(raw);
  }

  lemma FlatTarget(items: seq<LineItem>)
    requires Flat(items) && items != []
    ensures Target(MonthlySum(items), 1) == BaseSum(items) > 0.0
  {
    TargetIs(items, 1);
    assert Budget(1, BaseSum(items)) == Budget(0, BaseSum(items)) + BaseSum(items);
    Positive(items);
    BaseSumIs(items);
  }

  /** One day of flat lines without jitter already adds up, and is not rescaled. */
  lemma FlatSeries(items: seq<LineItem>, p: Period)
    requires Flat(items) && items != [] && DayCount(p) == 1
    ensures AmountSum(Series(items, p, MonthlySum(items), Steady(0.5))) == DailySum(items)
  {
    var day := Buckets(p)[0];
    assert Buckets(p) == [day];
    OneRow(items, day, Steady(0.5));
    FlatRow(items, day, 0);
    FlatTarget(items);
    NoRescale(Row(items, day, false, Steady(0.5), 0), Target(MonthlySum(items), 1));
  }

  lemma AppendLine(estate: seq<Resource>, id: string, dims: Dimensions, cost: int)
    requires cost > 0 && Flat(LineItems(estate))
    ensures var more, li := estate + [Billed(id, dims, cost, false)], LineItem(id, dims, cost, false, false);
      && LineItems(more) == LineItems(estate) + [li] && Flat(LineItems(more))
      && TotalMonthlyCost(more) == TotalMonthlyCost(estate) + cost
      && MonthlySum(LineItems(more)) == MonthlySum(LineItems(estate)) + cost
      && DailySum(LineItems(more)) == DailySum(LineItems(estate)) + USDollars(Base(li))
  {
    var more, li := estate + [Billed(id, dims, cost, false)], LineItem(id, dims, cost, false, false);
    assert more[..|more|-1] == estate;
    assert (LineItems(estate) + [li])[..|LineItems(estate)|] == LineItems(estate);
  }

  lemma DailyMicros(dims: Dimensions, id: string)
    ensures USDollars(Base(LineItem(id, dims, 487, false, false))) == 16
    ensures USDollars(Base(LineItem(id, dims, 46, false, false))) == 2
    ensures USDollars(Base(LineItem(id, dims, 395, false, false))) == 13
    ensures Target(487, 1) * MICROS_PER_UNIT == 16.0
  {
  }

  /** An estate whose lines come out sorted, flat and worth 487 micros a month. */
  ghost predicate Sample(estate: seq<Resource>, daily: int) {
    && Flat(LineItems(estate)) && LineItems(estate) != [] && Sorted(LineItems(estate), KeyLess)
    && TotalMonthlyCost(estate) == 487 == MonthlySum(LineItems(estate)) && DailySum(LineItems(estate)) == daily
  }

  lemma OneLine(dims: Dimensions) returns (estate: seq<Resource>)
    ensures Sample(estate, 16)
  {
    estate := [] + [Billed("a", dims, 487, false)];
    AppendLine([], "a", dims, 487);
    DailyMicros(dims, "a");
  }

  lemma ThreeLines(dims: Dimensions) returns (estate: seq<Resource>)
    ensures Sample(estate, 17)
  {
    var one := [] + [Billed("a", dims, 46, false)];
    var two := one + [Billed("b", dims, 46, false)];
    estate := two + [Billed("c", dims, 395, false)];
    AppendLine([], "a", dims, 46);
    AppendLine(one, "b", dims, 46);
    AppendLine(two, "c", dims, 395);
    DailyMicros(dims, "a");
    DailyMicros(dims, "b");
    DailyMicros(dims, "c");
  }

  lemma SampleSum(estate: seq<Resource>, daily: int, p: Period)
    requires Sample(estate, daily) && DayCount(p) == 1
    ensures Arranged(LineItems(estate), estate)
    ensures AmountSum(Series(LineItems(estate), p, TotalMonthlyCost(estate), Steady(0.5))) == daily
  {
    FlatSeries(LineItems(estate), p);
  }

  /** The divisibility that exactness needs is not enough, and nothing that depends on the total and
      the days alone is: of two estates that cost the same, one reconciles to the micro on a day and
      the other does not, on one stream. */
  lemma ExactUndecided(p: Period, dims: Dimensions)
    returns (one: seq<Resource>, three: seq<Resource>)
    requires DayCount(p) == 1
    ensures UnitInterval(Steady(0.5)) && TotalMonthlyCost(one) == 487 == TotalMonthlyCost(three)
    ensures Arranged(LineItems(one), one) && Arranged(LineItems(three), three)
    ensures AmountSum(Series(LineItems(one), p, 487, Steady(0.5))) as real == Target(487, 1) * MICROS_PER_UNIT
    ensures AmountSum(Series(LineItems(three), p, 487, Steady(0.5))) as real != Target(487, 1) * MICROS_PER_UNIT
  {
    one := OneLine(dims);
    three := ThreeLines(dims);
    SampleSum(one, 16, p);
    SampleSum(three, 17, p);
    DailyMicros(dims, "a");
  }
}

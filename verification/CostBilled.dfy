/** The series as it is billed: amounts, rounded when drawn and again when rescaled
    (internal/adapters/awssim/cost.go), against the unrounded usage beside them. A billed amount is
    within a stated number of micros of its usage, so what holds of the usage with room to spare holds
    of the amount. */
module CostBilled {
  import opened Calendar
  import opened CostIngest
  import opened CostSeries
  import opened CostShape
  import opened Money
  import opened Reconciliation

  /** A record's amount is its usage in micros, to within 1.0721. */
  predicate NearMicros(r: Record) {
    Within(r.amount as real, r.usage * MICROS_PER_UNIT, 1.0721)
  }

  /** When the items add up to the total: one scale near one, and every amount near its usage. */
  lemma SeriesNear(items: seq<LineItem>, p: Period, s: Stream) returns (scale: real)
    requires Billable(items) && UnitInterval(s) && DayCount(p) > 0 && items != []
    ensures ScaledBy(items, p, MonthlySum(items), s, scale) && scale >= 0.16865
    ensures forall r | r in Series(items, p, MonthlySum(items), s) :: NearMicros(r)
  {
    var raw := Raw(items, Buckets(p), SpikeDay(DayCount(p)), s);
    RawNearTarget(items, Buckets(p), SpikeDay(DayCount(p)), s);
    RawRoundedOnce(items, Buckets(p), SpikeDay(DayCount(p)), s);
    scale := ScaleNear(raw, Target(MonthlySum(items), DayCount(p)));
    RescaledNear(raw, scale);
  }

  lemma RescaledNear(raw: seq<Record>, scale: real)
    requires RoundedOnce(raw) && 0.0 <= scale && (scale + 1.0) / 2.0 <= 1.0721
    ensures forall r | r in Rescale(raw, scale) :: NearMicros(r)
  {
    forall r | r in Rescale(raw, scale)
      ensures NearMicros(r)
    {
      var i :| 0 <= i < |raw| && Rescale(raw, scale)[i] == r;
      assert raw[i] in raw;
      RecordNear(raw[i], scale);
    }
  }

  lemma RecordNear(r: Record, scale: real)
    requires r.amount == USDollars(r.usage) && 0.0 <= scale && (scale + 1.0) / 2.0 <= 1.0721
    ensures NearMicros(Rescaled(r, scale))
  {
    OneRecord(r, scale);
    Swap(r.usage, MICROS_PER_UNIT, scale);
  }

  lemma Swap(a: real, b: real, c: real)
    ensures a * b * c == a * c * b
  {
  }

  // ---- the spike, billed -------------------------------------------------------------------

  /** What the NAT-processed lines among the first k are billed on day d. */
  function NatAmount(items: seq<LineItem>, records: seq<Record>, d: nat, k: nat): int
    requires k <= |items|
  {
    if k == 0 then 0
    else if items[k-1].natProcessed && At(items, d, k - 1) < |records|
    then NatAmount(items, records, d, k - 1) + records[At(items, d, k - 1)].amount
    else NatAmount(items, records, d, k - 1)
  }

  function NatAmountTotal(items: seq<LineItem>, records: seq<Record>, n: nat): int {
    if n == 0 then 0 else NatAmountTotal(items, records, n - 1) + NatAmount(items, records, n - 1, |items|)
  }

  function NatCount(items: seq<LineItem>, k: nat): nat
    requires k <= |items|
  {
    if k == 0 then 0 else if items[k-1].natProcessed then NatCount(items, k - 1) + 1 else NatCount(items, k - 1)
  }

  function NatMonthly(items: seq<LineItem>, k: nat): int
    requires k <= |items|
  {
    if k == 0 then 0
    else if items[k-1].natProcessed then NatMonthly(items, k - 1) + items[k-1].monthly
    else NatMonthly(items, k - 1)
  }

  lemma {:induction false} NatNear(items: seq<LineItem>, records: seq<Record>, d: nat, k: nat)
    requires k <= |items| && forall r | r in records :: NearMicros(r)
    ensures Within(NatAmount(items, records, d, k) as real, NatUsage(items, records, d, k) * MICROS_PER_UNIT,
              NatCount(items, k) as real * 1.0721)
  {
    if k > 0 {
      NatNear(items, records, d, k - 1);
      if At(items, d, k - 1) < |records| { assert NearMicros(records[At(items, d, k - 1)]); }
    }
  }

  lemma {:induction false} NatTotalNear(items: seq<LineItem>, records: seq<Record>, n: nat, c: real)
    requires c == NatCount(items, |items|) as real * 1.0721 && forall r | r in records :: NearMicros(r)
    ensures Within(NatAmountTotal(items, records, n) as real, NatTotal(items, records, n) * MICROS_PER_UNIT,
                   Budget(n, c))
  {
    if n > 0 {
      NatTotalNear(items, records, n - 1, c);
      NatNear(items, records, n - 1, |items|);
    }
  }

  /** A NAT-processed line's spike is worth more than a fiftieth of its month. */
  lemma SpikeWorth(li: LineItem, day: Instant, s: Stream, p: nat, scale: real)
    requires UnitInterval(s) && li.natProcessed && li.variable && li.monthly > 0 && scale >= 0.16865
    ensures Rescaled(RecordOf(li, day, true, s, p), scale).usage * MICROS_PER_UNIT >= 0.02179 * li.monthly as real
  {
    var lifted := Lifted(Factor(li.variable, Weekday(day), s, p), li, true);
    FactorBounds(true, Weekday(day), s, p);
    PricedWorth(li, day, lifted, scale);
  }

  lemma PricedWorth(li: LineItem, day: Instant, factor: real, scale: real)
    requires li.monthly > 0 && factor >= 3.933 && scale >= 0.16865
    ensures Rescaled(Priced(li, day, factor), scale).usage * MICROS_PER_UNIT >= 0.02179 * li.monthly as real
  {
    assert Base(li) > 0.0;
    Products(Base(li), factor, 3.933, scale);
  }

  lemma Products(base: real, factor: real, low: real, scale: real)
    requires base > 0.0 && factor >= low > 0.0 && scale >= 0.16865
    ensures base * factor * scale >= base * low * 0.16865
  {
    Ordered(low, factor, base);
    Ordered(0.16865, scale, base * factor);
    Ordered(base * low, base * factor, 0.16865);
  }

  lemma {:induction false} NatWorth(items: seq<LineItem>, p: Period, s: Stream, scale: real, k: nat)
    requires Billable(items) && UnitInterval(s) && DayCount(p) >= 2 && k <= |items|
    requires ScaledBy(items, p, MonthlySum(items), s, scale) && scale >= 0.16865
    ensures SpikeDay(DayCount(p)) >= 0
    ensures NatUsage(items, Series(items, p, MonthlySum(items), s), SpikeDay(DayCount(p)), k) * MICROS_PER_UNIT >=
      0.02179 * NatMonthly(items, k) as real
  {
    if k > 0 {
      NatWorth(items, p, s, scale, k - 1);
      if items[k-1].natProcessed {
        var d := SpikeDay(DayCount(p));
        SeriesAt(items, p, MonthlySum(items), s, scale, d, k - 1);
        SpikeWorth(items[k-1], Buckets(p)[d], s, Position(items, d, k - 1), scale);
      }
    }
  }

  /** n days, a of them the spike's: a is within c of 2.98 b, and the rest come to at most b each,
      again within c. */
  lemma MeanArithmetic(n: real, a: real, b: real, c: real, total: real)
    requires n >= 11.0 && a >= 2.98 * b - c && total <= n * b + 1.98 * b + n * c && b > 116.7 * c >= 0.0
    ensures n * a > 2.5 * total
  {
    Ordered(2.98 * b - c, a, n);
    Ordered(11.0, n, 0.48 * b - 3.5 * c);
    Spread(n, b, c);
  }

  lemma Spread(n: real, b: real, c: real)
    ensures (2.98 * b - c) * n == 2.98 * (n * b) - n * c
    ensures n * (0.48 * b - 3.5 * c) == 0.48 * (n * b) - 3.5 * (n * c)
  {
  }

  lemma {:induction false} BudgetMicros(n: nat, dollars: real)
    ensures Budget(n, dollars) * MICROS_PER_UNIT == Budget(n, dollars * MICROS_PER_UNIT)
  {
    if n > 0 { BudgetMicros(n - 1, dollars); }
  }

  /** The spike day and the total of n days, in micros, in terms of the most b a quiet day is worth
      and the most c a day's rounding comes to. */
  lemma BilledBounds(items: seq<LineItem>, records: seq<Record>, spikeDay: nat, n: nat)
    returns (b: real, c: real)
    requires spikeDay < n && forall r | r in records :: NearMicros(r)
    requires forall d: nat | d < n && d != spikeDay ::
      2.98 * NatUsage(items, records, d, |items|) <= NatUsage(items, records, spikeDay, |items|)
    requires NatUsage(items, records, spikeDay, |items|) * MICROS_PER_UNIT > 373.0 * NatCount(items, |items|) as real
    ensures b > 116.7 * c >= 0.0
    ensures NatAmount(items, records, spikeDay, |items|) as real >= 2.98 * b - c
    ensures NatAmountTotal(items, records, n) as real <= Budget(n, b) + 1.98 * b + Budget(n, c)
  {
    c := NatCount(items, |items|) as real * 1.0721;
    var dollars := NatUsage(items, records, spikeDay, |items|) / 2.98;
    b := dollars * MICROS_PER_UNIT;
    NatNear(items, records, spikeDay, |items|);
    NatTotalNear(items, records, n, c);
    TotalBelow(items, records, spikeDay, n, dollars);
    BudgetMicros(n, dollars);
  }

  lemma MeanFromBudget(n: nat, a: int, b: real, c: real, total: int)
    requires n >= 11 && b > 116.7 * c >= 0.0
    requires a as real >= 2.98 * b - c && total as real <= Budget(n, b) + 1.98 * b + Budget(n, c)
    ensures 2 * (n * a) > 5 * total
  {
    BudgetIs(n, b);
    BudgetIs(n, c);
    MeanArithmetic(n as real, a as real, b, c, total as real);
    Integers(n, a);
  }

  lemma Integers(n: int, a: int)
    ensures n as real * a as real == (n * a) as real
  {
  }

  /** The same for what is billed, once a NAT-processed line is worth 17200 micros a month on
      average, a little under two cents: from eleven days on the spike day's amounts exceed 2.5 times
      the daily mean, whatever the stream. */
  lemma BilledSpikeBeatsMean(items: seq<LineItem>, p: Period, s: Stream)
    requires Billable(items) && UnitInterval(s) && DayCount(p) >= 11
    requires exists k :: 0 <= k < |items| && items[k].natProcessed
    requires NatMonthly(items, |items|) >= 17200 * NatCount(items, |items|)
    ensures var n, records := DayCount(p), Series(items, p, MonthlySum(items), s);
      && SpikeDay(n) >= 0
      && 2 * (n * NatAmount(items, records, SpikeDay(n), |items|)) > 5 * NatAmountTotal(items, records, n)
  {
    var scale := SeriesNear(items, p, s);
    NatWorth(items, p, s, scale, |items|);
    SomeNat(items, |items|);
    Positive(items);
    forall d: nat | d < DayCount(p) && d != SpikeDay(DayCount(p))
      ensures 2.98 * NatUsage(items, Series(items, p, MonthlySum(items), s), d, |items|) <=
        NatUsage(items, Series(items, p, MonthlySum(items), s), SpikeDay(DayCount(p)), |items|)
    {
      NatDayDominates(items, p, MonthlySum(items), s, d, |items|);
    }
    var records, spikeDay := Series(items, p, MonthlySum(items), s), SpikeDay(DayCount(p));
    var b, c := BilledBounds(items, records, spikeDay, DayCount(p));
    MeanFromBudget(DayCount(p), NatAmount(items, records, spikeDay, |items|), b, c,
      NatAmountTotal(items, records, DayCount(p)));
  }

  lemma {:induction false} SomeNat(items: seq<LineItem>, k: nat)
    requires k <= |items|
    ensures (exists j :: 0 <= j < k && items[j].natProcessed) ==> NatCount(items, k) > 0
  {
    if k > 0 { SomeNat(items, k - 1); }
  }

  // ---- lines too small to bill ---------------------------------------------------------------

  /** Lines of at most two micros a month round to nothing on every day, spike included. */
  lemma TooSmallToBill(items: seq<LineItem>, p: Period, total: int, s: Stream)
    requires Billable(items) && UnitInterval(s) && forall li | li in items :: li.monthly <= 2
    ensures forall r | r in Series(items, p, total, s) :: r.amount == 0
  {
    RawTooSmall(items, Buckets(p), SpikeDay(DayCount(p)), s);
  }

  lemma {:induction false} RawTooSmall(items: seq<LineItem>, days: seq<Instant>, spikeDay: int, s: Stream)
    requires Billable(items) && UnitInterval(s) && forall li | li in items :: li.monthly <= 2
    ensures forall r | r in Raw(items, days, spikeDay, s) :: r.amount == 0
  {
    if days != [] {
      var d := |days| - 1;
      RawTooSmall(items, days[..d], spikeDay, s);
      RowTooSmall(items, days[d], d == spikeDay, s, d * Draws(items));
    }
  }

  lemma {:induction false} RowTooSmall(items: seq<LineItem>, day: Instant, spike: bool, s: Stream, p: nat)
    requires Billable(items) && UnitInterval(s) && forall li | li in items :: li.monthly <= 2
    ensures forall r | r in Row(items, day, spike, s, p) :: r.amount == 0
  {
    if items != [] {
      var rest, li := items[..|items|-1], items[|items|-1];
      assert li in items;
      RowTooSmall(rest, day, spike, s, p);
      RecordTooSmall(li, day, spike, s, p + Draws(rest));
    }
  }

  lemma RecordTooSmall(li: LineItem, day: Instant, spike: bool, s: Stream, p: nat)
    requires UnitInterval(s) && 0 < li.monthly <= 2
    ensures RecordOf(li, day, spike, s, p).amount == 0
  {
    RecordBounds(li, day, spike, s, p);
    RoundedAway(RecordOf(li, day, spike, s, p).usage * MICROS_PER_UNIT);
  }

  lemma RoundedAway(x: real)
    requires 0.0 <= x < 0.5
    ensures Round(x) == 0
  {
  }

  /** So without a size condition the billed spike need not stand out: for a NAT-processed line of one
      micro a month it is zero like every other day. */
  lemma BilledSpikeVanishes(p: Period, s: Stream, dims: Dimensions) returns (items: seq<LineItem>)
    requires UnitInterval(s) && DayCount(p) >= 11
    ensures Billable(items) && |items| == 1 && items[0].natProcessed
    ensures var n, records := DayCount(p), Series(items, p, MonthlySum(items), s);
      SpikeDay(n) >= 0 && NatAmount(items, records, SpikeDay(n), 1) == 0 && NatAmountTotal(items, records, n) == 0
  {
    items := [LineItem("nat" + PROCESSED, dims, 1, true, true)];
    TooSmallToBill(items, p, MonthlySum(items), s);
    AllZero(items, Series(items, p, MonthlySum(items), s), SpikeDay(DayCount(p)));
    TotalZero(items, Series(items, p, MonthlySum(items), s), DayCount(p));
  }

  lemma AllZero(items: seq<LineItem>, records: seq<Record>, d: nat)
    requires |items| == 1 && forall r | r in records :: r.amount == 0
    ensures NatAmount(items, records, d, 1) == 0
  {
    if At(items, d, 0) < |records| { assert records[At(items, d, 0)] in records; }
    assert NatAmount(items, records, d, 0) == 0;
  }

  lemma {:induction false} TotalZero(items: seq<LineItem>, records: seq<Record>, n: nat)
    requires |items| == 1 && forall r | r in records :: r.amount == 0
    ensures NatAmountTotal(items, records, n) == 0
  {
    if n > 0 {
      TotalZero(items, records, n - 1);
      AllZero(items, records, n - 1);
    }
  }
}

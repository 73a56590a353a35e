/** The shape of the daily series Fetch returns: which draws each record used, how a line's records
    tile the period, the injected spike, and the weekly cycle. */
module CostShape {
  import opened Calendar
  import opened CostIngest
  import opened CostSeries
  import opened Money
  import opened Reconciliation

  /** The number of the record of day d and item k. */
  function At(items: seq<LineItem>, d: nat, k: nat): nat { d * |items| + k }

  /** The draws before the record of day d and item k. */
  function Position(items: seq<LineItem>, d: nat, k: nat): nat
    requires k <= |items|
  {
    d * Draws(items) + Draws(items[..k])
  }

  /** The fetched series is the raw one times one positive scale. */
  ghost predicate ScaledBy(items: seq<LineItem>, p: Period, total: int, s: Stream, scale: real) {
    scale > 0.0 && Series(items, p, total, s) == Rescale(Raw(items, Buckets(p), SpikeDay(DayCount(p)), s), scale)
  }

  lemma SeriesScale(items: seq<LineItem>, p: Period, total: int, s: Stream) returns (scale: real)
    requires Billable(items) && UnitInterval(s) && total > 0 && DayCount(p) > 0 && items != []
    ensures ScaledBy(items, p, total, s, scale)
  {
    RawNearTarget(items, Buckets(p), SpikeDay(DayCount(p)), s);
    scale := PositiveScale(Raw(items, Buckets(p), SpikeDay(DayCount(p)), s), total, DayCount(p));
  }

  /** Every record of a fetch, by day and item: its dimensions are its line's, its day its
      bucket's, and its amounts come from the stream at Position and the one scale. */
  lemma SeriesAt(items: seq<LineItem>, p: Period, total: int, s: Stream, scale: real, d: nat, k: nat)
    requires ScaledBy(items, p, total, s, scale) && d < DayCount(p) && k < |items|
    ensures At(items, d, k) < |Series(items, p, total, s)| == DayCount(p) * |items|
    ensures Series(items, p, total, s)[At(items, d, k)] ==
      Rescaled(RecordOf(items[k], Buckets(p)[d], d == SpikeDay(DayCount(p)), s, Position(items, d, k)), scale)
  {
    RawAt(items, Buckets(p), SpikeDay(DayCount(p)), s, d, k);
    RescaleAt(Raw(items, Buckets(p), SpikeDay(DayCount(p)), s), scale, At(items, d, k));
  }

  lemma RescaleAt(records: seq<Record>, scale: real, i: nat)
    requires i < |records|
    ensures Rescale(records, scale)[i] == Rescaled(records[i], scale)
  {
  }

  lemma PositiveScale(raw: seq<Record>, total: int, n: nat) returns (scale: real)
    requires UsageSum(raw) > 0.0 && total > 0 && n > 0
    ensures scale > 0.0 && Reconciled(raw, Target(total, n)) == Rescale(raw, scale)
  {
    scale := Target(total, n) / UsageSum(raw);
    Quotient(Units(total), n as real / AVERAGE_DAYS_PER_MONTH, UsageSum(raw));
  }

  lemma Quotient(a: real, b: real, c: real)
    requires a > 0.0 && b > 0.0 && c > 0.0
    ensures a * b / c > 0.0
  {
    assert a * b > 0.0;
  }

  /** A line's records tile the period's days: each starts at its midnight and ends where the next
      one starts. */
  lemma RecordsTile(items: seq<LineItem>, p: Period, total: int, s: Stream, d: nat, k: nat)
    requires Billable(items) && UnitInterval(s) && total > 0
    requires d < DayCount(p) && k < |items|
    ensures At(items, d, k) < |Series(items, p, total, s)| == DayCount(p) * |items|
    ensures var r := Series(items, p, total, s)[At(items, d, k)];
      && r.dims == items[k].dims
      && r.start == MidnightOf(DayOf(p.start) + d) && r.end == MidnightOf(DayOf(p.start) + d + 1)
  {
    var scale := SeriesScale(items, p, total, s);
    SeriesAt(items, p, total, s, scale, d, k);
  }

  // ---- the spike -----------------------------------------------------------------------

  lemma SpikeFactor(li: LineItem, day: Instant, other: Instant, s: Stream, p: nat, q: nat)
    requires UnitInterval(s) && li.natProcessed && li.variable
    ensures var quiet := Lifted(Factor(li.variable, Weekday(other), s, q), li, false);
      quiet > 0.0 && Lifted(Factor(li.variable, Weekday(day), s, p), li, true) > 2.98 * quiet
  {
    FactorBounds(true, Weekday(day), s, p);
    FactorBounds(true, Weekday(other), s, q);
  }

  /** a is worth more than 2.98 times b. */
  predicate Dominates(a: Record, b: Record) {
    a.usage > 2.98 * b.usage && b.usage > 0.0 && a.amount >= b.amount
  }

  lemma Times(f: real, high: real, low: real)
    requires f > 0.0 && low > 0.0 && high > 2.98 * low
    ensures f * high > 2.98 * (f * low) && f * low > 0.0
  {
    assert f * (high - 2.98 * low) > 0.0;
    assert f * low > 0.0;
    assert f * (high - 2.98 * low) == f * high - 2.98 * (f * low);
  }

  lemma PricedDominates(li: LineItem, day: Instant, high: real, other: Instant, low: real)
    requires li.monthly > 0 && low > 0.0 && high > 2.98 * low
    ensures Dominates(Priced(li, day, high), Priced(li, other, low))
  {
    assert Base(li) > 0.0;
    ProductDominates(Base(li), high, low, Priced(li, day, high), Priced(li, other, low));
  }

  lemma ProductDominates(base: real, high: real, low: real, a: Record, b: Record)
    requires base > 0.0 && low > 0.0 && high > 2.98 * low
    requires a.usage == base * high && a.amount == USDollars(a.usage)
    requires b.usage == base * low && b.amount == USDollars(b.usage)
    ensures Dominates(a, b)
  {
    Times(base, high, low);
    RoundMonotone(b.usage * MICROS_PER_UNIT, a.usage * MICROS_PER_UNIT);
  }

  lemma RescaledDominates(a: Record, b: Record, scale: real)
    requires Dominates(a, b) && scale > 0.0
    ensures Dominates(Rescaled(a, scale), Rescaled(b, scale))
  {
    Times(scale, a.usage, b.usage);
    ScaleMonotone(b.amount, a.amount, scale);
  }

  lemma ScaleMonotone(a: int, b: int, scale: real)
    requires a <= b && scale > 0.0
    ensures Scale(a, scale) <= Scale(b, scale)
  {
    Ordered(a as real, b as real, scale);
    RoundMonotone(a as real * scale, b as real * scale);
  }

  /** On every NAT-processed line the spike day, one inside the period and never its first day, is
      worth more than 2.98 times any other day, and after both roundings it is still a maximum. */
  lemma SpikeDominates(items: seq<LineItem>, p: Period, total: int, s: Stream, d: nat, k: nat)
    requires Billable(items) && UnitInterval(s) && total > 0
    requires d < DayCount(p) && k < |items| && items[k].natProcessed
    requires DayCount(p) >= 2 && d != SpikeDay(DayCount(p))
    ensures 1 <= SpikeDay(DayCount(p)) < DayCount(p)
    ensures var records := Series(items, p, total, s);
      && At(items, SpikeDay(DayCount(p)), k) < |records| && At(items, d, k) < |records|
      && var spike, quiet := records[At(items, SpikeDay(DayCount(p)), k)], records[At(items, d, k)];
         Dominates(spike, quiet)
  {
    var spikeDay, days := SpikeDay(DayCount(p)), Buckets(p);
    var scale := SeriesScale(items, p, total, s);
    SeriesAt(items, p, total, s, scale, spikeDay, k);
    SeriesAt(items, p, total, s, scale, d, k);
    var li, x, y := items[k], Position(items, spikeDay, k), Position(items, d, k);
    SpikeFactor(li, days[spikeDay], days[d], s, x, y);
    PricedDominates(li, days[spikeDay], Lifted(Factor(li.variable, Weekday(days[spikeDay]), s, x), li, true),
      days[d], Lifted(Factor(li.variable, Weekday(days[d]), s, y), li, false));
    RescaledDominates(RecordOf(li, days[spikeDay], true, s, x), RecordOf(li, days[d], false, s, y), scale);
  }

  /** The place of a billed line among the arranged items. */
  lemma PlaceOf(estate: seq<Resource>, items: seq<LineItem>, r: Resource, li: LineItem) returns (k: nat)
    requires Arranged(items, estate) && r in estate && Bills(r, li)
    ensures k < |items| && items[k] == li && Billable(items)
  {
    ArrangedItems(items, estate);
    LineOf(estate, r, li);
    assert li in multiset(LineItems(estate));
    assert li in items;
    k :| 0 <= k < |items| && items[k] == li;
  }

  /** Of the estate: every NAT gateway that processes anything has a line on its bytes, in its own
      dimensions and at its own price, whose spike day dominates every other day of the period. */
  lemma GatewaySpikes(estate: seq<Resource>, items: seq<LineItem>, p: Period, s: Stream, r: Resource) returns (k: nat)
    requires Arranged(items, estate) && UnitInterval(s) && TotalMonthlyCost(estate) > 0 && DayCount(p) >= 2
    requires r in estate && r.NatGateway? && r.processed > 0
    ensures k < |items| && items[k] == LineItem(r.id + "-processed", r.bytesDims, r.processed, true, true)
    ensures 1 <= SpikeDay(DayCount(p)) < DayCount(p)
    ensures forall d: nat | d < DayCount(p) && d != SpikeDay(DayCount(p)) ::
      var records := Series(items, p, TotalMonthlyCost(estate), s);
      && At(items, SpikeDay(DayCount(p)), k) < |records| && At(items, d, k) < |records|
      && var spike, quiet := records[At(items, SpikeDay(DayCount(p)), k)], records[At(items, d, k)];
         spike.usage > 2.98 * quiet.usage && quiet.usage > 0.0 && spike.amount >= quiet.amount
  {
    k := PlaceOf(estate, items, r, LineItem(r.id + "-processed", r.bytesDims, r.processed, true, true));
    SpikeDayInside(DayCount(p));
    forall d: nat | d < DayCount(p) && d != SpikeDay(DayCount(p))
      ensures var records := Series(items, p, TotalMonthlyCost(estate), s);
        && At(items, SpikeDay(DayCount(p)), k) < |records| && At(items, d, k) < |records|
        && Dominates(records[At(items, SpikeDay(DayCount(p)), k)], records[At(items, d, k)])
    {
      SpikeDominates(items, p, TotalMonthlyCost(estate), s, d, k);
    }
  }

  /** The injection moves one day of the NAT-processed lines and nothing else: every other raw
      record is what it would be without an anomaly, and a moved one is 4.5 times that. */
  lemma OnlySpikeMoves(items: seq<LineItem>, days: seq<Instant>, spikeDay: int, s: Stream,
          d: nat, k: nat)
    requires d < |days| && k < |items|
    ensures var calm, raw := Raw(items, days, -1, s), Raw(items, days, spikeDay, s);
      && At(items, d, k) < |raw| == |calm|
      && (if items[k].natProcessed && d == spikeDay
          then raw[At(items, d, k)].usage == calm[At(items, d, k)].usage * SPIKE
          else raw[At(items, d, k)] == calm[At(items, d, k)])
  {
    RawAt(items, days, spikeDay, s, d, k);
    RawAt(items, days, -1, s, d, k);
    RecordLift(items[k], days[d], s, Position(items, d, k));
  }

  lemma RecordLift(li: LineItem, day: Instant, s: Stream, p: nat)
    ensures li.natProcessed ==> RecordOf(li, day, true, s, p).usage == RecordOf(li, day, false, s, p).usage * SPIKE
    ensures !li.natProcessed ==> RecordOf(li, day, true, s, p) == RecordOf(li, day, false, s, p)
  {
    PricedLift(li, day, Factor(li.variable, Weekday(day), s, p));
  }

  lemma PricedLift(li: LineItem, day: Instant, factor: real)
    ensures Priced(li, day, factor * SPIKE).usage == Priced(li, day, factor).usage * SPIKE
  {
  }

  // ---- against the mean -------------------------------------------------------------------

  /** What the NAT-processed lines among the first k are worth on day d. */
  function NatUsage(items: seq<LineItem>, records: seq<Record>, d: nat, k: nat): real
    requires k <= |items|
  {
    if k == 0 then 0.0
    else if items[k-1].natProcessed && At(items, d, k - 1) < |records|
    then NatUsage(items, records, d, k - 1) + records[At(items, d, k - 1)].usage
    else NatUsage(items, records, d, k - 1)
  }

  /** The same over the first n days. */
  function NatTotal(items: seq<LineItem>, records: seq<Record>, n: nat): real {
    if n == 0 then 0.0 else NatTotal(items, records, n - 1) + NatUsage(items, records, n - 1, |items|)
  }

  lemma {:induction false} NatDayDominates(items: seq<LineItem>, p: Period, total: int, s: Stream, d: nat, k: nat)
    requires Billable(items) && UnitInterval(s) && total > 0
    requires DayCount(p) >= 2 && d < DayCount(p) && d != SpikeDay(DayCount(p)) && k <= |items|
    ensures var records := Series(items, p, total, s);
      var spike, quiet := NatUsage(items, records, SpikeDay(DayCount(p)), k), NatUsage(items, records, d, k);
      spike >= 2.98 * quiet >= 0.0 && ((exists j :: 0 <= j < k && items[j].natProcessed) ==> spike > 2.98 * quiet)
  {
    if k > 0 {
      NatDayDominates(items, p, total, s, d, k - 1);
      if items[k-1].natProcessed { SpikeDominates(items, p, total, s, d, k - 1); }
    }
  }

  lemma {:induction false} TotalBelow(items: seq<LineItem>, records: seq<Record>, spikeDay: nat, n: nat, b: real)
    requires forall d: nat | d < n && d != spikeDay :: NatUsage(items, records, d, |items|) <= b
    ensures NatTotal(items, records, n) <=
      Budget(n, b) + if spikeDay < n then NatUsage(items, records, spikeDay, |items|) - b else 0.0
  {
    if n > 0 { TotalBelow(items, records, spikeDay, n - 1, b); }
  }

  lemma BudgetGrows(n: nat, b: real)
    requires n >= 11 && b >= 0.0
    ensures Budget(n, 2.98 * b) == 2.98 * Budget(n, b) && Budget(n, b) >= 11.0 * b
  {
    BudgetIs(n, b);
    BudgetIs(n, 2.98 * b);
    Ordered(11.0, n as real, b);
    Commutes(n as real, b);
  }

  lemma Commutes(n: real, b: real)
    ensures n * (2.98 * b) == 2.98 * (n * b)
  {
  }

  lemma MeanBound(items: seq<LineItem>, records: seq<Record>, spikeDay: nat, n: nat)
    requires n >= 11 && spikeDay < n && NatUsage(items, records, spikeDay, |items|) > 0.0
    requires forall d: nat | d < n && d != spikeDay ::
      2.98 * NatUsage(items, records, d, |items|) <= NatUsage(items, records, spikeDay, |items|)
    ensures Budget(n, NatUsage(items, records, spikeDay, |items|)) > 2.5 * NatTotal(items, records, n)
  {
    var b := NatUsage(items, records, spikeDay, |items|) / 2.98;
    TotalBelow(items, records, spikeDay, n, b);
    BudgetGrows(n, b);
  }

  lemma SpikeBudget(items: seq<LineItem>, p: Period, total: int, s: Stream)
    requires Billable(items) && UnitInterval(s) && total > 0 && DayCount(p) >= 11
    requires exists k :: 0 <= k < |items| && items[k].natProcessed
    ensures var n, records := DayCount(p), Series(items, p, total, s);
      SpikeDay(n) >= 0 && Budget(n, NatUsage(items, records, SpikeDay(n), |items|)) > 2.5 * NatTotal(items, records, n)
  {
    NatDayDominates(items, p, total, s, 0, |items|);
    forall d: nat | d < DayCount(p) && d != SpikeDay(DayCount(p))
      ensures 2.98 * NatUsage(items, Series(items, p, total, s), d, |items|) <=
        NatUsage(items, Series(items, p, total, s), SpikeDay(DayCount(p)), |items|)
    {
      NatDayDominates(items, p, total, s, d, |items|);
    }
    MeanBound(items, Series(items, p, total, s), SpikeDay(DayCount(p)), DayCount(p));
  }

  /** x is more than 2.5 times the mean of n values that add up to total. */
  predicate AboveMean(n: nat, x: real, total: real) { n as real * x > 2.5 * total }

  /** From eleven days on, the spike day's NAT-processed total exceeds 2.5 times the daily mean,
      whatever the stream and before rounding. */
  lemma SpikeBeatsMean(items: seq<LineItem>, p: Period, total: int, s: Stream)
    requires Billable(items) && UnitInterval(s) && total > 0 && DayCount(p) >= 11
    requires exists k :: 0 <= k < |items| && items[k].natProcessed
    ensures var n, records := DayCount(p), Series(items, p, total, s);
      SpikeDay(n) >= 0 && AboveMean(n, NatUsage(items, records, SpikeDay(n), |items|), NatTotal(items, records, n))
  {
    SpikeBudget(items, p, total, s);
    MeanTimes(DayCount(p), NatUsage(items, Series(items, p, total, s), SpikeDay(DayCount(p)), |items|),
      NatTotal(items, Series(items, p, total, s), DayCount(p)));
  }

  lemma MeanTimes(n: nat, x: real, total: real)
    requires Budget(n, x) > 2.5 * total
    ensures AboveMean(n, x, total)
  {
    BudgetIs(n, x);
  }
}

/** Fetch of the simulated cost ingestor (internal/adapters/awssim/cost.go): sort, draw, rescale. */
module CostIngest {
  import opened Calendar
  import opened CostSeries
  import opened Money
  import opened Order

  datatype Session = Refused(message: string) | Open(estate: seq<Resource>)

  datatype Result = Failure(message: string) | Success(records: seq<Record>)

  predicate KeyLess(a: LineItem, b: LineItem) { LexLess(a.key, b.key) }

  const SECOND := 1_000_000_000

  /** seededSourceFor: whole seconds, the start weighted. */
  function Seed(p: Period): int { p.start / SECOND * 31 + p.end / SECOND }

  /** A period that starts in second s and ends in second t, wherever in them. */
  lemma SeedCounts(s: int, x: int, t: int, y: int)
    requires 0 <= x < 1_000_000_000 && 0 <= y < 1_000_000_000
    ensures Seed(Period(s * 1_000_000_000 + x, t * 1_000_000_000 + y)) == 31 * s + t
  {
  }

  /** The estate's monthly total pro-rated to n days, in dollars. */
  function Target(total: int, n: nat): real {
    Units(total) * (n as real / AVERAGE_DAYS_PER_MONTH)
  }

  function Rescaled(r: Record, scale: real): Record {
    r.(amount := Scale(r.amount, scale), usage := r.usage * scale)
  }

  function Rescale(records: seq<Record>, scale: real): (scaled: seq<Record>)
    ensures |scaled| == |records|
  {
    seq(|records|, i requires 0 <= i < |records| => Rescaled(records[i], scale))
  }

  function Reconciled(raw: seq<Record>, target: real): (records: seq<Record>)
    ensures |records| == |raw|
  {
    if UsageSum(raw) > 0.0 then Rescale(raw, target / UsageSum(raw)) else raw
  }

  /** The records of a period for items in the given order. */
  function Series(items: seq<LineItem>, p: Period, total: int, s: Stream): seq<Record> {
    var days := Buckets(p);
    Reconciled(Raw(items, days, SpikeDay(|days|), s), Target(total, |days|))
  }

  ghost predicate Arranged(items: seq<LineItem>, estate: seq<Resource>) {
    multiset(items) == multiset(LineItems(estate)) && Sorted(items, KeyLess)
  }

  lemma KeyLessOrders()
    ensures StrictWeak(KeyLess)
  {
    LexStrictWeak();
    forall x, y, z | KeyLess(x, z)
      ensures KeyLess(x, y) || KeyLess(y, z)
    {
      assert LexLess(x.key, y.key) || LexLess(y.key, z.key);
    }
  }

  /** sort.Slice fixes the order of the items only up to equal keys; source gives the stream of a
      seed. */
  method Fetch(session: Session, period: Period, source: int -> Stream) returns (r: Result)
    ensures session.Refused? ==> r == Failure(session.message)
    ensures session.Open? ==> r.Success? && exists items ::
      Arranged(items, session.estate) &&
      r.records == Series(items, period, TotalMonthlyCost(session.estate), source(Seed(period)))
  {
    if session.Refused? {
      return Failure(session.message);
    }
    var built := BuildLineItems(session.estate);
    var items := SortByKey(built);
    assert Arranged(items, session.estate);
    var days := DailyBuckets(period);
    if |days| == 0 {
      assert Series(items, period, TotalMonthlyCost(session.estate), source(Seed(period))) == [];
      return Success([]);
    }
    var rng := new Rng(source(Seed(period)));
    var spikeDay := -1;
    if |days| >= 2 {
      spikeDay := (|days| as real * 0.6).Floor;
      if spikeDay >= |days| {
        spikeDay := |days| - 1;
      }
    }
    SpikeDayInside(|days|);
    var records, rawTotal := Draw(items, days, spikeDay, rng);
    var target := Target(TotalMonthlyCost(session.estate), |days|);
    if rawTotal > 0.0 {
      records := RescaleAll(records, target / rawTotal);
    }
    return Success(records);
  }

  method SortByKey(built: seq<LineItem>) returns (items: seq<LineItem>)
    ensures multiset(items) == multiset(built) && Sorted(items, KeyLess)
  {
    KeyLessOrders();
    items := SortSlice(built, KeyLess);
  }

  /** The reconciliation loop, which overwrites the records by index. */
  method RescaleAll(raw: seq<Record>, scale: real) returns (records: seq<Record>)
    ensures records == Rescale(raw, scale)
  {
    records := raw;
    var i := 0;
    while i < |records|
      invariant 0 <= i <= |records| == |raw|
      invariant forall j | 0 <= j < i :: records[j] == Rescaled(raw[j], scale)
      invariant forall j | i <= j < |raw| :: records[j] == raw[j]
    {
      records := records[i := Rescaled(records[i], scale)];
      i := i + 1;
    }
  }

  /** The day by item loop: records and their running total. */
  method Draw(items: seq<LineItem>, days: seq<Instant>, spikeDay: int, rng: Rng)
    returns (records: seq<Record>, rawTotal: real)
    requires rng.pos == 0
    modifies rng`pos
    ensures records == Raw(items, days, spikeDay, rng.stream)
    ensures rawTotal == UsageSum(records)
    ensures rng.pos == |days| * Draws(items)
  {
    records, rawTotal := [], 0.0;
    var d := 0;
    while d < |days|
      invariant d <= |days|
      invariant records == Raw(items, days[..d], spikeDay, rng.stream)
      invariant rawTotal == UsageSum(records)
      invariant rng.pos == d * Draws(items)
    {
      records, rawTotal := DrawDay(items, days[d], d == spikeDay, rng, records, rawTotal);
      DayStep(items, days, d, spikeDay, rng.stream);
      d := d + 1;
    }
    assert days[..d] == days;
  }

  /** One pass of the inner loop. */
  method DrawDay(items: seq<LineItem>, day: Instant, spike: bool, rng: Rng, before: seq<Record>, totalBefore: real)
    returns (records: seq<Record>, rawTotal: real)
    requires totalBefore == UsageSum(before)
    modifies rng`pos
    ensures records == before + Row(items, day, spike, rng.stream, old(rng.pos))
    ensures rawTotal == UsageSum(records)
    ensures rng.pos == old(rng.pos) + Draws(items)
  {
    records, rawTotal := before, totalBefore;
    ghost var p := rng.pos;
    var k := 0;
    while k < |items|
      invariant k <= |items|
      invariant DrawnSo(records, rawTotal, before, items[..k], day, spike, rng.stream, p)
      invariant rng.pos == p + Draws(items[..k])
    {
      var record := DrawRecord(items[k], day, spike, rng);
      DrawStep(records, rawTotal, record, before, items, k, day, spike, rng.stream, p);
      records, rawTotal, k := records + [record], rawTotal + record.usage, k + 1;
    }
    assert items[..k] == items;
  }

  /** before with a day's records of some items after it, and the total of all of them. */
  ghost predicate DrawnSo(records: seq<Record>, rawTotal: real, before: seq<Record>, items: seq<LineItem>,
          day: Instant, spike: bool, s: Stream, p: nat) {
    records == before + Row(items, day, spike, s, p) && rawTotal == UsageSum(records)
  }

  lemma DrawStep(records: seq<Record>, rawTotal: real, r: Record, before: seq<Record>, items: seq<LineItem>, k: nat,
          day: Instant, spike: bool, s: Stream, p: nat)
    requires k < |items| && DrawnSo(records, rawTotal, before, items[..k], day, spike, s, p)
    requires r == RecordOf(items[k], day, spike, s, p + Draws(items[..k]))
    ensures Draws(items[..k+1]) == Draws(items[..k]) + DrawsOf(items[k].variable)
    ensures DrawnSo(records + [r], rawTotal + r.usage, before, items[..k+1], day, spike, s, p)
  {
    RowStep(before, items, k, day, spike, s, p);
    Appended(records, r);
  }

  method DrawRecord(li: LineItem, day: Instant, spike: bool, rng: Rng) returns (record: Record)
    modifies rng`pos
    ensures record == RecordOf(li, day, spike, rng.stream, old(rng.pos))
    ensures rng.pos == old(rng.pos) + DrawsOf(li.variable)
  {
    var factor := DayFactor(li.variable, Weekday(day), rng);
    if li.natProcessed && spike {
      factor := factor * SPIKE;
    }
    record := Priced(li, day, factor);
  }

  lemma Appended(records: seq<Record>, r: Record)
    ensures UsageSum(records + [r]) == UsageSum(records) + r.usage
  {
    assert (records + [r])[..|records|] == records;
  }

  lemma RowStep(before: seq<Record>, items: seq<LineItem>, k: nat, day: Instant, spike: bool, s: Stream, p: nat)
    requires k < |items|
    ensures Draws(items[..k+1]) == Draws(items[..k]) + DrawsOf(items[k].variable)
    ensures before + Row(items[..k+1], day, spike, s, p) ==
      before + Row(items[..k], day, spike, s, p) + [RecordOf(items[k], day, spike, s, p + Draws(items[..k]))]
  {
    assert items[..k+1][..k] == items[..k];
  }

  lemma DayStep(items: seq<LineItem>, days: seq<Instant>, d: nat, spikeDay: int, s: Stream)
    requires d < |days|
    ensures items[..|items|] == items
    ensures (d + 1) * Draws(items) == d * Draws(items) + Draws(items)
    ensures Raw(items, days[..d+1], spikeDay, s) ==
      Raw(items, days[..d], spikeDay, s) + RowOf(items, days[d], d, spikeDay, s)
  {
    assert days[..d+1][..d] == days[..d];
  }
}

/** The simulated daily cost series before reconciliation (internal/adapters/awssim/cost.go):
    line items, the draws each record takes from the seeded stream, and the injected spike. */
module CostSeries {
  import opened Calendar
  import opened Money

  // ---- line items -----------------------------------------------------------

  datatype Dimensions = Dimensions(
    region: string, zone: string, service: string, usageType: string, operation: string, unit: string,
    environment: string)

  /** A priced resource of the estate: most are billed on one dimension, a NAT gateway on two. */
  datatype Resource =
    | Billed(id: string, dims: Dimensions, cost: int, variable: bool)
    | NatGateway(id: string, hoursDims: Dimensions, bytesDims: Dimensions, hours: int, processed: int)

  /** Monthly amounts are micro-dollars here; the source holds the same amount in dollars. */
  datatype LineItem = LineItem(key: string, dims: Dimensions, monthly: int, variable: bool, natProcessed: bool)

  const HOURS := "-hours"
  const PROCESSED := "-processed"

  function ItemsOf(r: Resource): seq<LineItem> {
    match r
    case Billed(id, dims, cost, variable) => Charged(LineItem(id, dims, cost, variable, false))
    case NatGateway(id, hd, bd, hours, processed) =>
      Charged(LineItem(id + HOURS, hd, hours, false, false)) +
      Charged(LineItem(id + PROCESSED, bd, processed, true, true))
  }

  function Charged(li: LineItem): seq<LineItem> {
    if li.monthly > 0 then [li] else []
  }

  function LineItems(estate: seq<Resource>): seq<LineItem> {
    if estate == [] then []
    else LineItems(estate[..|estate|-1]) + ItemsOf(estate[|estate|-1])
  }

  method BuildLineItems(estate: seq<Resource>) returns (items: seq<LineItem>)
    ensures items == LineItems(estate)
  {
    items := [];
    for i := 0 to |estate|
      invariant items == LineItems(estate[..i])
    {
      assert estate[..i+1][..i] == estate[..i];
      match estate[i] {
        case Billed(id, dims, cost, variable) =>
          if cost > 0 {
            items := items + [LineItem(id, dims, cost, variable, false)];
          }
        case NatGateway(id, hd, bd, hours, processed) =>
          var before := items;
          if hours > 0 {
            items := items + [LineItem(id + HOURS, hd, hours, false, false)];
          }
          if processed > 0 {
            items := items + [LineItem(id + PROCESSED, bd, processed, true, true)];
          }
          assert items == before + ItemsOf(estate[i]);
      }
    }
    assert estate[..|estate|] == estate;
  }

  /** li is a line r is billed by: a resource on its id, its own dimensions, price and kind of traffic; a
      NAT gateway on its hours, flat, and on the bytes it processes, which vary and carry the anomaly. */
  predicate Bills(r: Resource, li: LineItem) {
    match r
    case Billed(id, dims, cost, variable) => cost > 0 && li == LineItem(id, dims, cost, variable, false)
    case NatGateway(id, hoursDims, bytesDims, hours, processed) =>
      || (hours > 0 && li == LineItem(id + "-hours", hoursDims, hours, false, false))
      || (processed > 0 && li == LineItem(id + "-processed", bytesDims, processed, true, true))
  }

  /** The resources that bill li, by their place in the estate. */
  function Billers(estate: seq<Resource>, li: LineItem): set<nat> {
    set i: nat | i < |estate| && Bills(estate[i], li)
  }

  lemma ItemsBill(r: Resource, li: LineItem)
    ensures multiset(ItemsOf(r))[li] == if Bills(r, li) then 1 else 0
  {
  }

  lemma BillersOneMore(estate: seq<Resource>, r: Resource, li: LineItem)
    ensures |Billers(estate + [r], li)| == |Billers(estate, li)| + if Bills(r, li) then 1 else 0
  {
    var few, all := Billers(estate, li), Billers(estate + [r], li);
    assert all == if Bills(r, li) then few + {|estate|} else few;
  }

  lemma Joined(estate: seq<Resource>, r: Resource, li: LineItem)
    ensures multiset(LineItems(estate + [r]))[li] == multiset(LineItems(estate))[li] + multiset(ItemsOf(r))[li]
  {
    assert (estate + [r])[..|estate|] == estate;
  }

  /** The estate's lines are those its resources bill, once for each that does, and no others. */
  lemma {:induction false} LinesAreBilled(estate: seq<Resource>, li: LineItem)
    ensures multiset(LineItems(estate))[li] == |Billers(estate, li)|
  {
    if estate == [] {
      assert Billers(estate, li) == {};
    } else {
      var rest, last := estate[..|estate|-1], estate[|estate|-1];
      assert estate == rest + [last];
      LinesAreBilled(rest, li);
      ItemsBill(last, li);
      BillersOneMore(rest, last, li);
      Joined(rest, last, li);
    }
  }

  lemma {:induction false} LineOf(estate: seq<Resource>, r: Resource, li: LineItem)
    requires r in estate && Bills(r, li)
    ensures li in LineItems(estate)
  {
    LinesAreBilled(estate, li);
    var i :| 0 <= i < |estate| && estate[i] == r;
    assert i in Billers(estate, li);
    assert li in multiset(LineItems(estate));
  }

  /** Estate.TotalMonthlyCost. */
  function TotalMonthlyCost(estate: seq<Resource>): int {
    if estate == [] then 0
    else TotalMonthlyCost(estate[..|estate|-1]) + CostOf(estate[|estate|-1])
  }

  function CostOf(r: Resource): int {
    match r
    case Billed(_, _, cost, _) => cost
    case NatGateway(_, _, _, hours, processed) => hours + processed
  }

  function MonthlySum(items: seq<LineItem>): int {
    if items == [] then 0 else MonthlySum(items[..|items|-1]) + items[|items|-1].monthly
  }

  predicate NoCredit(r: Resource) {
    match r
    case Billed(_, _, cost, _) => cost >= 0
    case NatGateway(_, _, _, hours, processed) => hours >= 0 && processed >= 0
  }

  lemma {:induction false} MonthlySumAppend(a: seq<LineItem>, b: seq<LineItem>)
    ensures MonthlySum(a + b) == MonthlySum(a) + MonthlySum(b)
  {
    if b == [] {
      assert a + b == a;
    } else {
      var rest := b[..|b|-1];
      assert (a + b)[..|a + b|-1] == a + rest;
      MonthlySumAppend(a, rest);
    }
  }

  lemma OfResource(r: Resource)
    ensures MonthlySum(ItemsOf(r)) >= CostOf(r)
    ensures MonthlySum(ItemsOf(r)) == CostOf(r) <==> NoCredit(r)
  {
    if r.NatGateway? {
      MonthlySumAppend(
        Charged(LineItem(r.id + HOURS, r.hoursDims, r.hours, false, false)),
        Charged(LineItem(r.id + PROCESSED, r.bytesDims, r.processed, true, true)));
    }
  }

  /** Dropping the lines with nothing to bill loses no money: the items add up to the estate's
      own total unless some price is negative, and then to more. */
  lemma {:induction false} ItemsSumToTotal(estate: seq<Resource>)
    ensures MonthlySum(LineItems(estate)) >= TotalMonthlyCost(estate)
    ensures MonthlySum(LineItems(estate)) == TotalMonthlyCost(estate) <==> forall r | r in estate :: NoCredit(r)
  {
    if estate != [] {
      var rest, r := estate[..|estate|-1], estate[|estate|-1];
      ItemsSumToTotal(rest);
      OfResource(r);
      MonthlySumAppend(LineItems(rest), ItemsOf(r));
      assert estate == rest + [r];
    }
  }

  predicate Billable(items: seq<LineItem>) {
    forall li | li in items :: li.monthly > 0 && (li.natProcessed ==> li.variable)
  }

  lemma {:induction false} ItemsBillable(estate: seq<Resource>)
    ensures Billable(LineItems(estate))
  {
    if estate != [] { ItemsBillable(estate[..|estate|-1]); }
  }

  ghost predicate DistinctKeys(items: seq<LineItem>) {
    forall i, j | 0 <= i < j < |items| :: items[i].key != items[j].key
  }

  ghost predicate Apart(a: seq<LineItem>, b: seq<LineItem>) {
    forall x, y | x in a && y in b :: x.key != y.key
  }

  /** A billed id spelled like the key of a line the NAT gateway is billed on. */
  predicate SpelledLike(id: string, gateway: Resource)
    requires gateway.NatGateway?
  {
    (gateway.hours > 0 && id == gateway.id + HOURS) || (gateway.processed > 0 && id == gateway.id + PROCESSED)
  }

  /** Two resources that bill a line under one key. */
  predicate Clash(a: Resource, b: Resource) {
    if a.Billed? then
      a.cost > 0 && (if b.Billed? then b.cost > 0 && a.id == b.id else SpelledLike(a.id, b))
    else if b.Billed? then b.cost > 0 && SpelledLike(b.id, a)
    else a.id == b.id && ((a.hours > 0 && b.hours > 0) || (a.processed > 0 && b.processed > 0))
  }

  lemma SuffixCancels(a: string, b: string, suffix: string)
    ensures a + suffix == b + suffix ==> a == b
  {
    assert a == (a + suffix)[..|a|];
    if a + suffix == b + suffix {
      assert |a| == |b|;
      assert b == (b + suffix)[..|b|];
    }
  }

  lemma SuffixesApart(a: string, b: string)
    ensures a + HOURS != b + PROCESSED
  {
    assert (a + HOURS)[|a + HOURS| - 1] == 's';
    assert (b + PROCESSED)[|b + PROCESSED| - 1] == 'd';
  }

  lemma ClashIff(a: Resource, b: Resource)
    ensures Apart(ItemsOf(a), ItemsOf(b)) <==> !Clash(a, b)
  {
    SuffixCancels(a.id, b.id, HOURS);
    SuffixCancels(a.id, b.id, PROCESSED);
    SuffixesApart(a.id, b.id);
    SuffixesApart(b.id, a.id);
    if Clash(a, b) {
      var x, y := Clashing(a, b);
    }
  }

  lemma Clashing(a: Resource, b: Resource) returns (x: LineItem, y: LineItem)
    requires Clash(a, b)
    ensures x in ItemsOf(a) && y in ItemsOf(b) && x.key == y.key
  {
    x, y := ItemsOf(a)[0], ItemsOf(b)[0];
    if x.key != y.key {
      x, y := ItemsOf(a)[|ItemsOf(a)|-1], ItemsOf(b)[|ItemsOf(b)|-1];
    }
  }

  lemma DistinctAppend(a: seq<LineItem>, b: seq<LineItem>)
    ensures DistinctKeys(a + b) <==> DistinctKeys(a) && DistinctKeys(b) && Apart(a, b)
  {
    if DistinctKeys(a + b) {
      forall i, j | 0 <= i < j < |a| ensures a[i].key != a[j].key {
        assert (a + b)[i] == a[i] && (a + b)[j] == a[j];
      }
      forall i, j | 0 <= i < j < |b| ensures b[i].key != b[j].key {
        assert (a + b)[|a| + i] == b[i] && (a + b)[|a| + j] == b[j];
      }
      forall x, y | x in a && y in b ensures x.key != y.key {
        var i :| 0 <= i < |a| && a[i] == x;
        var j :| 0 <= j < |b| && b[j] == y;
        assert (a + b)[i] == x && (a + b)[|a| + j] == y;
      }
    }
  }

  lemma {:induction false} ApartFromAll(estate: seq<Resource>, items: seq<LineItem>)
    ensures Apart(LineItems(estate), items) <==> forall r | r in estate :: Apart(ItemsOf(r), items)
  {
    if estate != [] {
      var rest, last := estate[..|estate|-1], estate[|estate|-1];
      ApartFromAll(rest, items);
      assert estate == rest + [last];
    }
  }

  lemma OwnKeysDistinct(r: Resource)
    ensures DistinctKeys(ItemsOf(r))
  {
    if r.NatGateway? { SuffixesApart(r.id, r.id); }
  }

  /** The sort keys are distinct exactly when no two resources bill a line under one key: two with
      one id, or one whose id is spelled like a NAT gateway's line. */
  lemma {:induction false} KeysDistinctIff(estate: seq<Resource>)
    ensures DistinctKeys(LineItems(estate)) <==>
      forall i, j | 0 <= i < j < |estate| :: !Clash(estate[i], estate[j])
  {
    if estate != [] {
      var rest, last := estate[..|estate|-1], estate[|estate|-1];
      KeysDistinctIff(rest);
      DistinctAppend(LineItems(rest), ItemsOf(last));
      OwnKeysDistinct(last);
      ApartFromAll(rest, ItemsOf(last));
      forall r | r in rest
        ensures Apart(ItemsOf(r), ItemsOf(last)) <==> !Clash(r, last)
      {
        ClashIff(r, last);
      }
      LastClash(estate);
    }
  }

  lemma LastClash(estate: seq<Resource>)
    requires estate != []
    ensures var rest, last := estate[..|estate|-1], estate[|estate|-1];
      (forall i, j | 0 <= i < j < |estate| :: !Clash(estate[i], estate[j])) <==>
      (forall i, j | 0 <= i < j < |rest| :: !Clash(rest[i], rest[j])) && forall r | r in rest :: !Clash(r, last)
  {
    var rest, last := estate[..|estate|-1], estate[|estate|-1];
    if forall i, j | 0 <= i < j < |estate| :: !Clash(estate[i], estate[j]) {
      forall i, j | 0 <= i < j < |rest| ensures !Clash(rest[i], rest[j]) {
        assert rest[i] == estate[i] && rest[j] == estate[j];
      }
      forall r | r in rest ensures !Clash(r, last) {
        var i :| 0 <= i < |rest| && rest[i] == r;
        assert r == estate[i] && last == estate[|estate|-1];
      }
    }
  }

  // ---- the seeded stream ------------------------------------------------------

  /** What rand.New(rand.NewSource(seed)) will yield, draw by draw. */
  type Stream = nat -> real

  ghost predicate UnitInterval(s: Stream) {
    forall i: nat :: 0.0 <= s(i) < 1.0
  }

  /** The stream that draws c every time. */
  function Steady(c: real): Stream { (i: nat) => c }

  class Rng {
    const stream: Stream
    var pos: nat

    constructor (stream: Stream)
      ensures this.stream == stream && pos == 0
    {
      this.stream, pos := stream, 0;
    }

    method Float64() returns (x: real)
      modifies this`pos
      ensures x == stream(old(pos)) && pos == old(pos) + 1
    {
      x := stream(pos);
      pos := pos + 1;
    }
  }

  function Seasonal(weekday: int): real {
    if weekday == 6 || weekday == 0 then 1.22 else if weekday == 5 then 1.08 else 0.95
  }

  function DrawsOf(variable: bool): nat { if variable then 2 else 1 }

  /** The day factor of a record whose draws begin at position p. A traffic-driven line discards
      its first draw, the flat jitter. */
  function Factor(variable: bool, weekday: int, s: Stream, p: nat): real {
    if variable then Seasonal(weekday) * (1.0 + (s(p + 1) - 0.5) * 0.16)
    else 1.0 + (s(p) - 0.5) * 0.06
  }

  method DayFactor(variable: bool, weekday: int, rng: Rng) returns (factor: real)
    modifies rng`pos
    ensures factor == Factor(variable, weekday, rng.stream, old(rng.pos))
    ensures rng.pos == old(rng.pos) + DrawsOf(variable)
    ensures !variable ==>
      factor == 1.0 + (rng.stream(old(rng.pos)) - 0.5) * 0.06 && rng.pos == old(rng.pos) + 1
    ensures variable ==>
      var season := if weekday in {6, 0} then 1.22 else if weekday == 5 then 1.08 else 0.95;
      factor == season * (1.0 + (rng.stream(old(rng.pos) + 1) - 0.5) * 0.16) && rng.pos == old(rng.pos) + 2
  {
    var x := rng.Float64();
    var jitter := 1.0 + (x - 0.5) * 0.06;
    if !variable {
      return jitter;
    }
    var seasonal := 1.0;
    match weekday {
      case 6 => seasonal := 1.22;
      case 0 => seasonal := 1.22;
      case 5 => seasonal := 1.08;
      case _ => seasonal := 0.95;
    }
    var y := rng.Float64();
    return seasonal * (1.0 + (y - 0.5) * 0.16);
  }

  lemma FactorBounds(variable: bool, weekday: int, s: Stream, p: nat)
    requires UnitInterval(s)
    ensures 0.874 <= Factor(variable, weekday, s, p) < 1.3176
    ensures variable ==> Seasonal(weekday) * 0.92 <= Factor(variable, weekday, s, p) < Seasonal(weekday) * 1.08
  {
    assert 0.0 <= s(p) < 1.0 && 0.0 <= s(p + 1) < 1.0;
  }

  // ---- the day by item loop ----------------------------------------------------

  const AVERAGE_DAYS_PER_MONTH := 30.4375
  const SPIKE := 4.5

  datatype Record = Record(dims: Dimensions, start: Instant, end: Instant, amount: int, usage: real)

  /** The day that carries the anomaly, -1 when there is none. */
  function SpikeDay(n: nat): int {
    if n >= 2 then n * 6 / 10 else -1
  }

  lemma SpikeDayInside(n: nat)
    ensures n < 2 ==> SpikeDay(n) == -1
    ensures n >= 2 ==> 1 <= SpikeDay(n) <= n - 1 && SpikeDay(n) == (n as real * 0.6).Floor
  {
  }

  function Base(li: LineItem): real {
    Units(li.monthly) / AVERAGE_DAYS_PER_MONTH
  }

  function Lifted(factor: real, li: LineItem, spike: bool): real {
    if li.natProcessed && spike then factor * SPIKE else factor
  }

  /** One record: its line's daily average times the day factor drawn at p, lifted on the spike
      day. */
  function RecordOf(li: LineItem, day: Instant, spike: bool, s: Stream, p: nat): Record {
    Priced(li, day, Lifted(Factor(li.variable, Weekday(day), s, p), li, spike))
  }

  /** What a record is worth, written out: the line's price over the average month, times the draw's
      factor for its weekday, times 4.5 on the spike day of a NAT-processed line. */
  lemma {:induction false} RecordIs(li: LineItem, day: Instant, spike: bool, s: Stream, p: nat)
    ensures var season := if Weekday(day) in {6, 0} then 1.22 else if Weekday(day) == 5 then 1.08 else 0.95;
      var drawn := if li.variable then season * (1.0 + (s(p + 1) - 0.5) * 0.16) else 1.0 + (s(p) - 0.5) * 0.06;
      var r := RecordOf(li, day, spike, s, p);
      && r.usage == li.monthly as real / 1000000.0 / 30.4375 * (if li.natProcessed && spike then drawn * 4.5 else drawn)
      && r.amount == USDollars(r.usage) && r.dims == li.dims
      && r.start == day && r.end == day + 86_400_000_000_000
  {
  }

  function Priced(li: LineItem, day: Instant, factor: real): Record {
    var amount := Base(li) * factor;
    Record(li.dims, day, day + DAY, USDollars(amount), amount)
  }

  /** Draws one day's records take for these items. */
  function Draws(items: seq<LineItem>): nat {
    if items == [] then 0 else Draws(items[..|items|-1]) + DrawsOf(items[|items|-1].variable)
  }

  function Row(items: seq<LineItem>, day: Instant, spike: bool, s: Stream, p: nat): seq<Record> {
    if items == [] then []
    else
      var rest, li := items[..|items|-1], items[|items|-1];
      Row(rest, day, spike, s, p) + [RecordOf(li, day, spike, s, p + Draws(rest))]
  }

  /** The records of the given days, the spike on day number spikeDay. */
  function Raw(items: seq<LineItem>, days: seq<Instant>, spikeDay: int, s: Stream): seq<Record> {
    if days == [] then []
    else Raw(items, days[..|days|-1], spikeDay, s) + RowOf(items, days[|days|-1], |days| - 1, spikeDay, s)
  }

  /** Day number d, whose draws follow those of d whole days. */
  function RowOf(items: seq<LineItem>, day: Instant, d: nat, spikeDay: int, s: Stream): seq<Record> {
    Row(items, day, d == spikeDay, s, d * Draws(items))
  }

  function UsageSum(records: seq<Record>): real {
    if records == [] then 0.0 else UsageSum(records[..|records|-1]) + records[|records|-1].usage
  }

  lemma {:induction false} RowAt(items: seq<LineItem>, day: Instant, spike: bool, s: Stream, p: nat, k: nat)
    requires k < |items|
    ensures |Row(items, day, spike, s, p)| == |items|
    ensures Row(items, day, spike, s, p)[k] == RecordOf(items[k], day, spike, s, p + Draws(items[..k]))
  {
    var rest := items[..|items|-1];
    if rest == [] {
      assert items[..0] == rest;
    } else if k == |rest| {
      RowAt(rest, day, spike, s, p, 0);
    } else {
      RowAt(rest, day, spike, s, p, k);
      assert rest[..k] == items[..k];
    }
  }

  lemma RowLength(items: seq<LineItem>, day: Instant, d: nat, spikeDay: int, s: Stream)
    ensures |RowOf(items, day, d, spikeDay, s)| == |items|
  {
    if items != [] { RowAt(items, day, d == spikeDay, s, d * Draws(items), 0); }
  }

  lemma OneMore(d: nat, m: nat)
    ensures (d + 1) * m == d * m + m
  {
  }

  lemma {:induction false} RawLength(items: seq<LineItem>, days: seq<Instant>, spikeDay: int, s: Stream)
    ensures |Raw(items, days, spikeDay, s)| == |days| * |items|
  {
    if days != [] {
      var d := |days| - 1;
      RawLength(items, days[..d], spikeDay, s);
      RowLength(items, days[d], d, spikeDay, s);
      OneMore(d, |items|);
    }
  }

  lemma {:induction false} RawPrefix(items: seq<LineItem>, days: seq<Instant>, spikeDay: int, s: Stream, n: nat)
    requires n <= |days|
    ensures Raw(items, days[..n], spikeDay, s) <= Raw(items, days, spikeDay, s)
  {
    if n == |days| {
      assert days[..n] == days;
    } else {
      RawPrefix(items, days[..|days|-1], spikeDay, s, n);
      assert days[..|days|-1][..n] == days[..n];
    }
  }

  /** Day d's records follow those of the days before. */
  lemma RawRow(items: seq<LineItem>, days: seq<Instant>, spikeDay: int, s: Stream, d: nat)
    requires d < |days|
    ensures Raw(items, days[..d], spikeDay, s) + RowOf(items, days[d], d, spikeDay, s) <= Raw(items, days, spikeDay, s)
  {
    RawPrefix(items, days, spikeDay, s, d + 1);
    assert days[..d+1][..d] == days[..d];
  }

  /** The record of day d and item k reads the stream at a position that depends on nothing but d
      and k: d whole rows of draws and those of the items before. */
  lemma {:induction false} RawAt(items: seq<LineItem>, days: seq<Instant>, spikeDay: int, s: Stream, d: nat, k: nat)
    requires d < |days| && k < |items|
    ensures d * |items| + k < |Raw(items, days, spikeDay, s)| == |days| * |items|
    ensures Raw(items, days, spikeDay, s)[d * |items| + k] ==
      RecordOf(items[k], days[d], d == spikeDay, s, d * Draws(items) + Draws(items[..k]))
  {
    RawLength(items, days, spikeDay, s);
    RawLength(items, days[..d], spikeDay, s);
    RawRow(items, days, spikeDay, s, d);
    RowLength(items, days[d], d, spikeDay, s);
    RowAt(items, days[d], d == spikeDay, s, d * Draws(items), k);
    Inside(Raw(items, days[..d], spikeDay, s), RowOf(items, days[d], d, spikeDay, s), Raw(items, days, spikeDay, s), k);
  }

  lemma Inside<T>(a: seq<T>, b: seq<T>, whole: seq<T>, k: nat)
    requires a + b <= whole && k < |b|
    ensures |a| + k < |whole| && whole[|a|+k] == b[k]
  {
    assert whole[|a|+k] == (a + b)[|a|+k];
  }

  lemma {:induction false} DrawsCount(items: seq<LineItem>)
    ensures Draws(items) == |items| + |set k | 0 <= k < |items| && items[k].variable|
  {
    if items != [] {
      var rest, last := items[..|items|-1], |items| - 1;
      DrawsCount(rest);
      var few, all := set k | 0 <= k < |rest| && rest[k].variable, set k | 0 <= k < |items| && items[k].variable;
      assert all == if items[last].variable then few + {last} else few;
    }
  }
}

/** Whether the order the estate is walked in shows in the fetched records (cost.go in
    internal/adapters/awssim sorts its line items by key before it draws). */
module CostOrder {
  import opened Calendar
  import opened CostIngest
  import opened CostSeries
  import opened CostShape
  import opened Money
  import opened Order
  import opened Reconciliation

  lemma {:induction false} LineItemsAppend(a: seq<Resource>, b: seq<Resource>)
    ensures LineItems(a + b) == LineItems(a) + LineItems(b)
  {
    if b == [] {
      assert a + b == a;
    } else {
      var rest, last := b[..|b|-1], b[|b|-1];
      LineItemsAppend(a, rest);
      assert (a + b)[..|a + b|-1] == a + rest && (a + b)[|a + b|-1] == last;
      ConcatAssoc(LineItems(a), LineItems(rest), ItemsOf(last));
    }
  }

  lemma {:induction false} TotalAppend(a: seq<Resource>, b: seq<Resource>)
    ensures TotalMonthlyCost(a + b) == TotalMonthlyCost(a) + TotalMonthlyCost(b)
  {
    if b == [] {
      assert a + b == a;
    } else {
      TotalAppend(a, b[..|b|-1]);
      assert (a + b)[..|a + b|-1] == a + b[..|b|-1];
    }
  }

  /** Taking one resource out of the middle. */
  lemma TakeOut(b1: seq<Resource>, x: Resource, b2: seq<Resource>)
    ensures multiset(LineItems(b1 + [x] + b2)) == multiset(LineItems(b1 + b2)) + multiset(ItemsOf(x))
    ensures TotalMonthlyCost(b1 + [x] + b2) == TotalMonthlyCost(b1 + b2) + CostOf(x)
  {
    LineItemsAppend(b1 + [x], b2);
    LineItemsAppend(b1, b2);
    TotalAppend(b1 + [x], b2);
    TotalAppend(b1, b2);
    assert (b1 + [x])[..|b1|] == b1;
  }

  lemma {:induction false} WalkPermutes(a: seq<Resource>, b: seq<Resource>)
    requires multiset(a) == multiset(b)
    ensures multiset(LineItems(a)) == multiset(LineItems(b))
    ensures TotalMonthlyCost(a) == TotalMonthlyCost(b)
  {
    if a == [] {
      assert |multiset(b)| == |b| == 0;
    } else {
      var b1, b2 := PullOut(a, b);
      TakeOut(b1, a[|a|-1], b2);
      WalkPermutes(a[..|a|-1], b1 + b2);
    }
  }

  /** Items of one key are one item, as they are when the keys are distinct. */
  ghost predicate KeyDetermines(items: seq<LineItem>) {
    forall u, v | u in items && v in items && u.key == v.key :: u == v
  }

  lemma DistinctDetermine(items: seq<LineItem>)
    requires DistinctKeys(items)
    ensures KeyDetermines(items)
  {
    forall u, v | u in items && v in items && u.key == v.key
      ensures u == v
    {
      var i :| 0 <= i < |items| && items[i] == u;
      var j :| 0 <= j < |items| && items[j] == v;
    }
  }

  /** Two walks of one estate, and two runs of the sort, give the same records as long as the
      items' keys determine them. */
  lemma WalkOrderIrrelevant(a: seq<Resource>, b: seq<Resource>, x: seq<LineItem>,
          y: seq<LineItem>, p: Period, s: Stream)
    requires multiset(a) == multiset(b) && KeyDetermines(LineItems(a))
    requires Arranged(x, a) && Arranged(y, b)
    ensures Series(x, p, TotalMonthlyCost(a), s) == Series(y, p, TotalMonthlyCost(b), s)
  {
    WalkPermutes(a, b);
    KeysRank(x, LineItems(a));
    forall li ensures !KeyLess(li, li) { LexIrreflexive(li.key); }
    SortUnique(x, y, KeyLess);
  }

  lemma KeysRank(x: seq<LineItem>, items: seq<LineItem>)
    requires multiset(x) == multiset(items) && KeyDetermines(items)
    ensures RankDetermines(x, KeyLess)
  {
    forall a, b | a in x && b in x && Same(a, b, KeyLess)
      ensures a == b
    {
      LexTotal(a.key, b.key);
      assert a in multiset(items) && b in multiset(items);
    }
  }

  // ---- a repeated key ---------------------------------------------------------------------

  /** With a repeated key the sort may leave its two items either way round, and the rest alike. */
  lemma RepeatedKey(estate: seq<Resource>, u: LineItem, v: LineItem)
    returns (pre: seq<LineItem>, post: seq<LineItem>)
    requires u in LineItems(estate) && v in LineItems(estate) && u != v && u.key == v.key
    ensures Arranged(pre + [u, v] + post, estate) && Arranged(pre + [v, u] + post, estate)
  {
    KeyLessOrders();
    LexIrreflexive(u.key);
    pre, post := SwapSorted(LineItems(estate), u, v, KeyLess);
  }

  lemma FirstDayDims(items: seq<LineItem>, p: Period, total: int, s: Stream, k: nat)
    requires DayCount(p) > 0 && k < |items|
    ensures k < |Series(items, p, total, s)| && Series(items, p, total, s)[k].dims == items[k].dims
  {
    RawAt(items, Buckets(p), SpikeDay(DayCount(p)), s, 0, k);
  }

  /** Then the records are not determined: two items of one key that differ in their dimensions give
      two allowed fetches whose records differ, for every period with a day in it and every stream. */
  lemma RepeatedKeyTells(estate: seq<Resource>, u: LineItem, v: LineItem, p: Period, s: Stream)
    returns (x: seq<LineItem>, y: seq<LineItem>)
    requires u in LineItems(estate) && v in LineItems(estate) && u.key == v.key && u.dims != v.dims
    requires DayCount(p) > 0
    ensures Arranged(x, estate) && Arranged(y, estate)
    ensures Series(x, p, TotalMonthlyCost(estate), s) != Series(y, p, TotalMonthlyCost(estate), s)
  {
    var pre, post := RepeatedKey(estate, u, v);
    x, y := pre + [u, v] + post, pre + [v, u] + post;
    FirstDayDims(x, p, TotalMonthlyCost(estate), s, |pre|);
    FirstDayDims(y, p, TotalMonthlyCost(estate), s, |pre|);
  }

  /** Item k's record on the first day, which is never the spike's. */
  function FirstDay(li: LineItem, p: Period, s: Stream, n: nat, scale: real): Record
    requires DayCount(p) > 0
  {
    Rescaled(RecordOf(li, Buckets(p)[0], false, s, n), scale)
  }

  lemma FirstDayRecord(items: seq<LineItem>, p: Period, total: int, s: Stream, scale: real, k: nat)
    requires ScaledBy(items, p, total, s, scale) && DayCount(p) > 0 && k < |items|
    ensures k < |Series(items, p, total, s)|
    ensures Series(items, p, total, s)[k] == FirstDay(items[k], p, s, Draws(items[..k]), scale)
  {
    SeriesAt(items, p, total, s, scale, 0, k);
    SpikeDayInside(DayCount(p));
    assert At(items, 0, k) == k && Position(items, 0, k) == Draws(items[..k]);
  }

  /** Both items' first-day records, in one order. */
  lemma PairRecords(pre: seq<LineItem>, u: LineItem, v: LineItem, post: seq<LineItem>, p: Period,
          total: int, s: Stream) returns (scale: real)
    requires Billable(pre + [u, v] + post) && UnitInterval(s) && total > 0 && DayCount(p) > 0
    ensures scale > 0.0
    ensures var records, n := Series(pre + [u, v] + post, p, total, s), Draws(pre);
      && |pre| + 1 < |records|
      && records[|pre|] == FirstDay(u, p, s, n, scale)
      && records[|pre|+1] == FirstDay(v, p, s, n + DrawsOf(u.variable), scale)
  {
    var items := pre + [u, v] + post;
    scale := SeriesScale(items, p, total, s);
    FirstDayRecord(items, p, total, s, scale, |pre|);
    FirstDayRecord(items, p, total, s, scale, |pre| + 1);
    DrawsBefore(pre, u, v, post);
  }

  lemma DrawsBefore(pre: seq<LineItem>, u: LineItem, v: LineItem, post: seq<LineItem>)
    ensures var items := pre + [u, v] + post;
      && items[|pre|] == u && items[|pre|+1] == v
      && Draws(items[..|pre|]) == Draws(pre) && Draws(items[..|pre|+1]) == Draws(pre) + DrawsOf(u.variable)
  {
    var items := pre + [u, v] + post;
    assert items[..|pre|] == pre && items[..|pre|+1] == pre + [u];
    assert (pre + [u])[..|pre|] == pre;
  }

  /** Two values that change places under two scales: nothing moves only if they are equal. */
  lemma TradePlaces(a: real, b: real, f: real, g: real, sx: real, sy: real)
    requires a > 0.0 && b > 0.0 && f > 0.0 && g > 0.0 && sx > 0.0 && sy > 0.0
    ensures a * f * sx == b * f * sy && b * g * sx == a * g * sy ==> a == b
  {
    CancelFactor(f, a * sx, b * sy);
    CancelFactor(g, b * sx, a * sy);
    SameScale(a, b, sx, sy);
    CancelFactor(sx, a, b);
  }

  lemma CancelFactor(f: real, x: real, y: real)
    requires f > 0.0
    ensures x * f == y * f ==> x == y
  {
    assert (x - y) * f == x * f - y * f;
  }

  lemma SameScale(a: real, b: real, sx: real, sy: real)
    requires a > 0.0 && b > 0.0
    ensures a * sx == b * sy && b * sx == a * sy ==> sx == sy
  {
    assert sx * (a + b) == a * sx + b * sx && sy * (a + b) == a * sy + b * sy;
    CancelFactor(a + b, sx, sy);
  }

  /** Items of one key that differ in their amount and not in how they vary tell too, on every
      stream: the two records cannot both keep their usage when the amounts change places. */
  lemma AmountTells(estate: seq<Resource>, u: LineItem, v: LineItem, p: Period, s: Stream)
    returns (x: seq<LineItem>, y: seq<LineItem>)
    requires u in LineItems(estate) && v in LineItems(estate) && u.key == v.key
    requires u.variable == v.variable && u.monthly != v.monthly
    requires UnitInterval(s) && DayCount(p) > 0 && TotalMonthlyCost(estate) > 0
    ensures Arranged(x, estate) && Arranged(y, estate)
    ensures Series(x, p, TotalMonthlyCost(estate), s) != Series(y, p, TotalMonthlyCost(estate), s)
  {
    ItemsBillable(estate);
    var pre, post := RepeatedKey(estate, u, v);
    x, y := pre + [u, v] + post, pre + [v, u] + post;
    ArrangedItems(x, estate);
    ArrangedItems(y, estate);
    assert u in x && v in x;
    AmountShows(pre, u, v, post, p, TotalMonthlyCost(estate), s);
  }

  lemma AmountShows(pre: seq<LineItem>, u: LineItem, v: LineItem, post: seq<LineItem>, p: Period,
          total: int, s: Stream)
    requires Billable(pre + [u, v] + post) && Billable(pre + [v, u] + post)
    requires UnitInterval(s) && DayCount(p) > 0 && total > 0
    requires u.monthly > 0 && v.monthly > 0 && u.monthly != v.monthly && u.variable == v.variable
    ensures Series(pre + [u, v] + post, p, total, s) != Series(pre + [v, u] + post, p, total, s)
  {
    var sx := PairRecords(pre, u, v, post, p, total, s);
    var sy := PairRecords(pre, v, u, post, p, total, s);
    PairDiffers(u, v, p, s, Draws(pre), sx, sy);
  }

  lemma PairDiffers(u: LineItem, v: LineItem, p: Period, s: Stream, n: nat, sx: real, sy: real)
    requires UnitInterval(s) && DayCount(p) > 0 && sx > 0.0 && sy > 0.0
    requires u.monthly > 0 && v.monthly > 0 && u.monthly != v.monthly && u.variable == v.variable
    ensures var m := n + DrawsOf(u.variable);
      FirstDay(u, p, s, n, sx) != FirstDay(v, p, s, n, sy) || FirstDay(v, p, s, m, sx) != FirstDay(u, p, s, m, sy)
  {
    var m, day := n + DrawsOf(u.variable), Buckets(p)[0];
    FactorBounds(u.variable, Weekday(day), s, n);
    FactorBounds(u.variable, Weekday(day), s, m);
    PricedDiffer(u, v, day, Factor(u.variable, Weekday(day), s, n), Factor(u.variable, Weekday(day), s, m), sx, sy);
  }

  lemma PricedDiffer(u: LineItem, v: LineItem, day: Instant, f: real, g: real, sx: real, sy: real)
    requires u.monthly > 0 && v.monthly > 0 && u.monthly != v.monthly
    requires f > 0.0 && g > 0.0 && sx > 0.0 && sy > 0.0
    ensures Rescaled(Priced(u, day, f), sx) != Rescaled(Priced(v, day, f), sy) ||
            Rescaled(Priced(v, day, g), sx) != Rescaled(Priced(u, day, g), sy)
  {
    SameUsage(u, v, day, f, f, sx, sy);
    SameUsage(v, u, day, g, g, sx, sy);
    BaseApart(u, v);
    Differ(Base(u), Base(v), f, g, sx, sy);
  }

  lemma BaseApart(u: LineItem, v: LineItem)
    requires u.monthly > 0 && v.monthly > 0
    ensures Base(u) > 0.0 && Base(v) > 0.0 && (Base(u) == Base(v) <==> u.monthly == v.monthly)
  {
  }

  lemma SameUsage(u: LineItem, v: LineItem, day: Instant, f: real, g: real, sx: real, sy: real)
    ensures Rescaled(Priced(u, day, f), sx) == Rescaled(Priced(v, day, g), sy) ==> Base(u) * f * sx == Base(v) * g * sy
  {
  }

  lemma Differ(a: real, b: real, f: real, g: real, sx: real, sy: real)
    requires a > 0.0 && b > 0.0 && a != b && f > 0.0 && g > 0.0 && sx > 0.0 && sy > 0.0
    ensures a * f * sx != b * f * sy || b * g * sx != a * g * sy
  {
    TradePlaces(a, b, f, g, sx, sy);
  }

  /** Items of one key of which one varies with the weekday and the other does not tell on some
      stream, whatever their amounts. */
  lemma VariationTells(estate: seq<Resource>, u: LineItem, v: LineItem, p: Period)
    returns (x: seq<LineItem>, y: seq<LineItem>, c: real)
    requires u in LineItems(estate) && v in LineItems(estate) && u.key == v.key
    requires u.variable && !v.variable
    requires DayCount(p) > 0 && TotalMonthlyCost(estate) > 0
    ensures UnitInterval(Steady(c))
    ensures Arranged(x, estate) && Arranged(y, estate)
    ensures Series(x, p, TotalMonthlyCost(estate), Steady(c)) != Series(y, p, TotalMonthlyCost(estate), Steady(c))
  {
    ItemsBillable(estate);
    var pre, post := RepeatedKey(estate, u, v);
    x, y := pre + [u, v] + post, pre + [v, u] + post;
    ArrangedItems(x, estate);
    ArrangedItems(y, estate);
    assert u in x && v in x;
    c := SeasonShows(pre, u, v, post, p, TotalMonthlyCost(estate));
  }

  lemma SeasonShows(pre: seq<LineItem>, u: LineItem, v: LineItem, post: seq<LineItem>, p: Period,
          total: int) returns (c: real)
    requires Billable(pre + [u, v] + post) && Billable(pre + [v, u] + post)
    requires DayCount(p) > 0 && total > 0 && u.monthly > 0 && v.monthly > 0 && u.variable && !v.variable
    ensures UnitInterval(Steady(c))
    ensures Series(pre + [u, v] + post, p, total, Steady(c)) != Series(pre + [v, u] + post, p, total, Steady(c))
  {
    var a, b;
    c, a, b := SeasonWorth(u, v, p, Draws(pre));
    var sx := PairWorth(pre, u, v, post, p, total, Steady(c), a, b);
    var sy := PairWorth(pre, v, u, post, p, total, Steady(c), b, a);
    WorthTells(Series(pre + [u, v] + post, p, total, Steady(c)), Series(pre + [v, u] + post, p, total, Steady(c)),
      |pre|, a, b, sx, sy);
  }

  /** A line's worth on the first day before any rescale, its draws at n. */
  function Worth(li: LineItem, p: Period, s: Stream, n: nat): real
    requires DayCount(p) > 0
  {
    RecordOf(li, Buckets(p)[0], false, s, n).usage
  }

  function SteadyFactor(variable: bool, weekday: int, c: real): real {
    if variable then Seasonal(weekday) * (1.0 + (c - 0.5) * 0.16) else 1.0 + (c - 0.5) * 0.06
  }

  lemma SteadyFactors(variable: bool, weekday: int, c: real, n: nat)
    ensures Factor(variable, weekday, Steady(c), n) == SteadyFactor(variable, weekday, c)
  {
  }

  lemma SteadyWorth(li: LineItem, p: Period, c: real, n: nat, worth: real)
    requires DayCount(p) > 0 && worth == Base(li) * SteadyFactor(li.variable, Weekday(Buckets(p)[0]), c)
    ensures Worth(li, p, Steady(c), n) == worth
  {
    SteadyFactors(li.variable, Weekday(Buckets(p)[0]), c, n);
  }

  /** Steady draws of a half and of nothing cannot both make the two lines worth the same. */
  lemma SeasonWorth(u: LineItem, v: LineItem, p: Period, n: nat) returns (c: real, a: real, b: real)
    requires DayCount(p) > 0 && u.monthly > 0 && v.monthly > 0 && u.variable && !v.variable
    ensures UnitInterval(Steady(c))
    ensures Worth(u, p, Steady(c), n) == a == Worth(u, p, Steady(c), n + 1)
    ensures Worth(v, p, Steady(c), n) == b == Worth(v, p, Steady(c), n + 2)
    ensures a > 0.0 && b > 0.0 && a != b
  {
    c, a, b := SeasonApart(u, v, Weekday(Buckets(p)[0]));
    SteadyWorth(u, p, c, n, a);
    SteadyWorth(u, p, c, n + 1, a);
    SteadyWorth(v, p, c, n, b);
    SteadyWorth(v, p, c, n + 2, b);
  }

  lemma SteadyTwo(weekday: int)
    ensures SteadyFactor(true, weekday, 0.5) == Seasonal(weekday) > 0.0 && SteadyFactor(false, weekday, 0.5) == 1.0
    ensures SteadyFactor(true, weekday, 0.0) == Seasonal(weekday) * 0.92 && SteadyFactor(false, weekday, 0.0) == 0.97
  {
  }

  lemma SeasonApart(u: LineItem, v: LineItem, weekday: int) returns (c: real, a: real, b: real)
    requires u.monthly > 0 && v.monthly > 0 && u.variable && !v.variable
    ensures 0.0 <= c < 1.0 && a > 0.0 && b > 0.0 && a != b
    ensures a == Base(u) * SteadyFactor(u.variable, weekday, c) && b == Base(v) * SteadyFactor(v.variable, weekday, c)
  {
    BaseApart(u, v);
    SteadyTwo(weekday);
    HalfOrNothing(Base(u), Base(v), Seasonal(weekday));
    c := if Base(u) * Seasonal(weekday) != Base(v) then 0.5 else 0.0;
    a, b := Base(u) * SteadyFactor(u.variable, weekday, c), Base(v) * SteadyFactor(v.variable, weekday, c);
  }

  lemma HalfOrNothing(a: real, b: real, season: real)
    requires a > 0.0 && b > 0.0 && season > 0.0
    ensures a * season > 0.0 && a * (season * 0.92) > 0.0
    ensures a * season == b ==> a * (season * 0.92) != b * 0.97
  {
    assert a * (season * 0.92) == (a * season) * 0.92;
  }

  lemma PairWorth(pre: seq<LineItem>, u: LineItem, v: LineItem, post: seq<LineItem>, p: Period,
          total: int, s: Stream, a: real, b: real) returns (scale: real)
    requires Billable(pre + [u, v] + post) && UnitInterval(s) && total > 0 && DayCount(p) > 0
    requires a == Worth(u, p, s, Draws(pre)) && b == Worth(v, p, s, Draws(pre) + DrawsOf(u.variable))
    ensures scale > 0.0
    ensures var records := Series(pre + [u, v] + post, p, total, s);
      |pre| + 1 < |records| && records[|pre|].usage == a * scale && records[|pre|+1].usage == b * scale
  {
    scale := PairRecords(pre, u, v, post, p, total, s);
    FirstDayWorth(u, p, s, Draws(pre), scale, a);
    FirstDayWorth(v, p, s, Draws(pre) + DrawsOf(u.variable), scale, b);
  }

  lemma FirstDayWorth(li: LineItem, p: Period, s: Stream, n: nat, scale: real, a: real)
    requires DayCount(p) > 0 && a == Worth(li, p, s, n)
    ensures FirstDay(li, p, s, n, scale).usage == a * scale
  {
    RescaledUsageIs(RecordOf(li, Buckets(p)[0], false, s, n), a, scale);
  }

  lemma RescaledUsageIs(r: Record, usage: real, scale: real)
    requires r.usage == usage
    ensures Rescaled(r, scale).usage == usage * scale
  {
  }

  lemma WorthTells(x: seq<Record>, y: seq<Record>, k: nat, a: real, b: real, sx: real, sy: real)
    requires k + 1 < |x| && k + 1 < |y| && a > 0.0 && b > 0.0 && a != b && sx > 0.0 && sy > 0.0
    requires x[k].usage == a * sx && x[k+1].usage == b * sx
    requires y[k].usage == b * sy && y[k+1].usage == a * sy
    ensures x != y
  {
    SameScale(a, b, sx, sy);
    CancelFactor(sx, a, b);
  }

  // ---- the anomaly flag ----------------------------------------------------------------------

  /** Items of one key of which the anomaly lifts only one tell on every stream, once the period has
      the two days an anomaly takes. */
  lemma AnomalyTells(estate: seq<Resource>, u: LineItem, v: LineItem, p: Period, s: Stream)
    returns (x: seq<LineItem>, y: seq<LineItem>)
    requires u in LineItems(estate) && v in LineItems(estate) && u.key == v.key
    requires u.natProcessed && !v.natProcessed && u.variable == v.variable && u.monthly == v.monthly
    requires UnitInterval(s) && DayCount(p) >= 2 && TotalMonthlyCost(estate) > 0
    ensures Arranged(x, estate) && Arranged(y, estate)
    ensures Series(x, p, TotalMonthlyCost(estate), s) != Series(y, p, TotalMonthlyCost(estate), s)
  {
    ItemsBillable(estate);
    var pre, post := RepeatedKey(estate, u, v);
    x, y := pre + [u, v] + post, pre + [v, u] + post;
    ArrangedItems(x, estate);
    ArrangedItems(y, estate);
    assert u in x && v in x;
    Swapped(pre, u, v, post);
    SpikeShows(x, y, p, TotalMonthlyCost(estate), s, |pre|);
  }

  /** Two sequences that vary alike. */
  ghost predicate VaryAlike(x: seq<LineItem>, y: seq<LineItem>) {
    |x| == |y| && forall i | 0 <= i < |x| :: x[i].variable == y[i].variable
  }

  lemma Swapped(pre: seq<LineItem>, u: LineItem, v: LineItem, post: seq<LineItem>)
    requires u.variable == v.variable
    ensures var x, y := pre + [u, v] + post, pre + [v, u] + post;
      VaryAlike(x, y) && |pre| < |x| && x[|pre|] == u && y[|pre|] == v
  {
  }

  lemma {:induction false} DrawsAlike(x: seq<LineItem>, y: seq<LineItem>)
    requires VaryAlike(x, y)
    ensures Draws(x) == Draws(y)
  {
    if x != [] { DrawsAlike(x[..|x|-1], y[..|y|-1]); }
  }

  lemma SameCells(x: seq<LineItem>, y: seq<LineItem>, d: nat, k: nat)
    requires VaryAlike(x, y) && k < |x|
    ensures At(x, d, k) == At(y, d, k) && Position(x, d, k) == Position(y, d, k)
  {
    DrawsAlike(x, y);
    DrawsAlike(x[..k], y[..k]);
  }

  /** Item k's records on the first day and on the spike day. */
  lemma ItemTwice(x: seq<LineItem>, p: Period, total: int, s: Stream, k: nat, i: nat, j: nat,
          m: nat, n: nat) returns (scale: real)
    requires Billable(x) && UnitInterval(s) && total > 0 && DayCount(p) >= 2 && k < |x|
    requires i == At(x, 0, k) && j == At(x, SpikeDay(DayCount(p)), k)
    requires m == Position(x, 0, k) && n == Position(x, SpikeDay(DayCount(p)), k)
    ensures var records := Series(x, p, total, s);
      && scale > 0.0 && i < |records| && j < |records|
      && records[i] == Rescaled(RecordOf(x[k], Buckets(p)[0], false, s, m), scale)
      && records[j] == Rescaled(RecordOf(x[k], Buckets(p)[SpikeDay(DayCount(p))], true, s, n), scale)
  {
    scale := SeriesScale(x, p, total, s);
    SeriesAt(x, p, total, s, scale, 0, k);
    SeriesAt(x, p, total, s, scale, SpikeDay(DayCount(p)), k);
  }

  /** Item k differs in the flag alone: its first day fixes the scales to be equal, its spike day
      then shows the lift. */
  lemma SpikeShows(x: seq<LineItem>, y: seq<LineItem>, p: Period, total: int, s: Stream, k: nat)
    requires Billable(x) && Billable(y) && UnitInterval(s) && total > 0 && DayCount(p) >= 2
    requires VaryAlike(x, y) && k < |x|
    requires x[k].natProcessed && !y[k].natProcessed && x[k].monthly == y[k].monthly
    ensures Series(x, p, total, s) != Series(y, p, total, s)
  {
    var spike := SpikeDay(DayCount(p));
    SameCells(x, y, 0, k);
    SameCells(x, y, spike, k);
    var i, j, m, n := At(x, 0, k), At(x, spike, k), Position(x, 0, k), Position(x, spike, k);
    var sx := ItemTwice(x, p, total, s, k, i, j, m, n);
    var sy := ItemTwice(y, p, total, s, k, i, j, m, n);
    LiftShows(x[k], y[k], Buckets(p)[0], Buckets(p)[spike], s, m, n, sx, sy);
  }

  lemma LiftShows(u: LineItem, v: LineItem, first: Instant, spike: Instant, s: Stream, m: nat,
          n: nat, sx: real, sy: real)
    requires UnitInterval(s) && sx > 0.0 && sy > 0.0 && u.monthly == v.monthly > 0 && u.variable == v.variable
    requires u.natProcessed && !v.natProcessed
    ensures Rescaled(RecordOf(u, first, false, s, m), sx) != Rescaled(RecordOf(v, first, false, s, m), sy) ||
            Rescaled(RecordOf(u, spike, true, s, n), sx) != Rescaled(RecordOf(v, spike, true, s, n), sy)
  {
    var f, g := Factor(u.variable, Weekday(first), s, m), Factor(u.variable, Weekday(spike), s, n);
    FactorBounds(u.variable, Weekday(first), s, m);
    FactorBounds(u.variable, Weekday(spike), s, n);
    PricedLiftShows(u, v, first, spike, f, g, g * SPIKE, sx, sy);
  }

  lemma PricedLiftShows(u: LineItem, v: LineItem, first: Instant, spike: Instant, f: real, g: real,
          lifted: real, sx: real, sy: real)
    requires u.monthly == v.monthly > 0 && f > 0.0 && g > 0.0 && lifted == g * SPIKE && sx > 0.0 && sy > 0.0
    ensures Rescaled(Priced(u, first, f), sx) != Rescaled(Priced(v, first, f), sy) ||
            Rescaled(Priced(u, spike, lifted), sx) != Rescaled(Priced(v, spike, g), sy)
  {
    SameUsage(u, v, first, f, f, sx, sy);
    SameUsage(u, v, spike, lifted, g, sx, sy);
    BaseApart(u, v);
    LiftApart(Base(u), f, g, lifted, sx, sy);
  }

  lemma LiftApart(base: real, f: real, g: real, lifted: real, sx: real, sy: real)
    requires base > 0.0 && f > 0.0 && g > 0.0 && lifted == g * SPIKE && sx > 0.0
    ensures base * f * sx != base * f * sy || base * lifted * sx != base * g * sy
  {
    assert base * f > 0.0 && base * g > 0.0;
    CancelFactor(base * f, sx, sy);
    assert base * (g * SPIKE) * sx == SPIKE * (base * g * sx);
    assert base * g * sx > 0.0;
  }

  // ---- one day ---------------------------------------------------------------------------------

  /** The item without its anomaly flag. */
  function Plain(li: LineItem): LineItem { li.(natProcessed := false) }

  function PlainAll(items: seq<LineItem>): (plain: seq<LineItem>)
    ensures |plain| == |items| && forall i | 0 <= i < |items| :: plain[i] == Plain(items[i])
  {
    seq(|items|, i requires 0 <= i < |items| => Plain(items[i]))
  }

  lemma PlainRecord(li: LineItem, day: Instant, s: Stream, p: nat)
    ensures RecordOf(Plain(li), day, false, s, p) == RecordOf(li, day, false, s, p)
  {
  }

  lemma PlainAt(items: seq<LineItem>, day: Instant, s: Stream, p: nat, k: nat)
    requires k < |items|
    ensures k < |Row(PlainAll(items), day, false, s, p)| == |Row(items, day, false, s, p)| == |items|
    ensures Row(PlainAll(items), day, false, s, p)[k] == Row(items, day, false, s, p)[k]
  {
    RowAt(items, day, false, s, p, k);
    RowAt(PlainAll(items), day, false, s, p, k);
    DrawsAlike(PlainAll(items)[..k], items[..k]);
    PlainRecord(items[k], day, s, p + Draws(items[..k]));
  }

  lemma PlainRow(items: seq<LineItem>, day: Instant, s: Stream, p: nat)
    ensures Row(PlainAll(items), day, false, s, p) == Row(items, day, false, s, p)
  {
    if items == [] {
      assert PlainAll(items) == [];
    } else {
      PlainAt(items, day, s, p, 0);
      forall k | 0 <= k < |items|
        ensures Row(PlainAll(items), day, false, s, p)[k] == Row(items, day, false, s, p)[k]
      {
        PlainAt(items, day, s, p, k);
      }
    }
  }

  /** A period of one day has no anomaly, so its records do not depend on the flag. */
  lemma PlainSeries(items: seq<LineItem>, p: Period, total: int, s: Stream)
    requires DayCount(p) == 1
    ensures Series(PlainAll(items), p, total, s) == Series(items, p, total, s)
  {
    var day := Buckets(p)[0];
    assert Buckets(p) == [day];
    OneRow(items, day, s);
    OneRow(PlainAll(items), day, s);
    PlainRow(items, day, s, 0);
  }

  lemma {:induction false} PlainPermutes(x: seq<LineItem>, y: seq<LineItem>)
    requires multiset(x) == multiset(y)
    ensures multiset(PlainAll(x)) == multiset(PlainAll(y))
  {
    if x == [] {
      assert |multiset(y)| == |y| == 0;
    } else {
      var y1, y2 := PullOut(x, y);
      var last := x[|x|-1];
      PlainPermutes(x[..|x|-1], y1 + y2);
      assert PlainAll(x) == PlainAll(x[..|x|-1]) + [Plain(last)];
      assert PlainAll(y) == PlainAll(y1) + [Plain(last)] + PlainAll(y2);
      assert PlainAll(y1 + y2) == PlainAll(y1) + PlainAll(y2);
    }
  }

  /** Items that no fetch over n days tells apart. */
  predicate Alike(u: LineItem, v: LineItem, n: nat) {
    n == 0 || u == v || (n == 1 && Plain(u) == Plain(v))
  }

  /** Items of one key are alike over n days. */
  ghost predicate KeyDecides(items: seq<LineItem>, n: nat) {
    forall u, v | u in items && v in items && u.key == v.key :: Alike(u, v, n)
  }

  lemma PlainRank(items: seq<LineItem>)
    requires KeyDecides(items, 1)
    ensures RankDetermines(PlainAll(items), KeyLess)
  {
    forall a, b | a in PlainAll(items) && b in PlainAll(items) && Same(a, b, KeyLess)
      ensures a == b
    {
      LexTotal(a.key, b.key);
      var u := PlainOf(items, a);
      var v := PlainOf(items, b);
      assert Alike(u, v, 1);
    }
  }

  lemma PlainOf(items: seq<LineItem>, a: LineItem) returns (li: LineItem)
    requires a in PlainAll(items)
    ensures li in items && Plain(li) == a
  {
    var i :| 0 <= i < |PlainAll(items)| && PlainAll(items)[i] == a;
    li := items[i];
  }

  lemma OneDayIrrelevant(estate: seq<Resource>, x: seq<LineItem>, y: seq<LineItem>, p: Period,
          s: Stream)
    requires DayCount(p) == 1 && KeyDecides(LineItems(estate), 1)
    requires Arranged(x, estate) && Arranged(y, estate)
    ensures Series(x, p, TotalMonthlyCost(estate), s) == Series(y, p, TotalMonthlyCost(estate), s)
  {
    forall li | li in x
      ensures li in LineItems(estate)
    {
      assert li in multiset(x) && li in multiset(LineItems(estate));
    }
    PlainRank(x);
    PlainPermutes(x, y);
    forall li ensures !KeyLess(li, li) { LexIrreflexive(li.key); }
    SortUnique(PlainAll(x), PlainAll(y), KeyLess);
    PlainSeries(x, p, TotalMonthlyCost(estate), s);
    PlainSeries(y, p, TotalMonthlyCost(estate), s);
  }

  // ---- exactly when the order shows --------------------------------------------------------------

  /** Two items of one key that are not alike always tell, on some stream. */
  lemma OrderTells(estate: seq<Resource>, u: LineItem, v: LineItem, p: Period)
    returns (x: seq<LineItem>, y: seq<LineItem>, s: Stream)
    requires u in LineItems(estate) && v in LineItems(estate) && u.key == v.key && !Alike(u, v, DayCount(p))
    requires TotalMonthlyCost(estate) > 0
    ensures UnitInterval(s) && Arranged(x, estate) && Arranged(y, estate)
    ensures Series(x, p, TotalMonthlyCost(estate), s) != Series(y, p, TotalMonthlyCost(estate), s)
  {
    var c := 0.5;
    if u.variable && !v.variable {
      x, y, c := VariationTells(estate, u, v, p);
    } else if v.variable && !u.variable {
      x, y, c := VariationTells(estate, v, u, p);
    } else if u.monthly != v.monthly {
      x, y := AmountTells(estate, u, v, p, Steady(c));
    } else if u.dims != v.dims {
      x, y := RepeatedKeyTells(estate, u, v, p, Steady(c));
    } else if u.natProcessed {
      x, y := AnomalyTells(estate, u, v, p, Steady(c));
    } else {
      x, y := AnomalyTells(estate, v, u, p, Steady(c));
    }
    s := Steady(c);
  }

  /** For an estate that costs something, over any period: the records are the same whatever the sort
      does with equal keys, on every stream, exactly when items of one key are alike. */
  lemma OrderIrrelevantIff(estate: seq<Resource>, p: Period)
    requires TotalMonthlyCost(estate) > 0
    ensures KeyDecides(LineItems(estate), DayCount(p)) <==>
      forall x, y, s | Arranged(x, estate) && Arranged(y, estate) && UnitInterval(s) ::
        Series(x, p, TotalMonthlyCost(estate), s) == Series(y, p, TotalMonthlyCost(estate), s)
  {
    if KeyDecides(LineItems(estate), DayCount(p)) {
      forall x, y, s | Arranged(x, estate) && Arranged(y, estate) && UnitInterval(s)
        ensures Series(x, p, TotalMonthlyCost(estate), s) == Series(y, p, TotalMonthlyCost(estate), s)
      {
        AlikeSeries(estate, x, y, p, s);
      }
    } else {
      var u, v :| u in LineItems(estate) && v in LineItems(estate) && u.key == v.key && !Alike(u, v, DayCount(p));
      var x, y, s := OrderTells(estate, u, v, p);
    }
  }

  lemma AlikeSeries(estate: seq<Resource>, x: seq<LineItem>, y: seq<LineItem>, p: Period, s: Stream)
    requires KeyDecides(LineItems(estate), DayCount(p)) && Arranged(x, estate) && Arranged(y, estate)
    ensures Series(x, p, TotalMonthlyCost(estate), s) == Series(y, p, TotalMonthlyCost(estate), s)
  {
    if DayCount(p) == 0 {
      NoDays(x, p, TotalMonthlyCost(estate), s);
      NoDays(y, p, TotalMonthlyCost(estate), s);
    } else if DayCount(p) == 1 {
      OneDayIrrelevant(estate, x, y, p, s);
    } else {
      KeyDecidesAll(LineItems(estate), DayCount(p));
      WalkOrderIrrelevant(estate, estate, x, y, p, s);
    }
  }

  lemma NoDays(items: seq<LineItem>, p: Period, total: int, s: Stream)
    requires DayCount(p) == 0
    ensures Series(items, p, total, s) == []
  {
    assert Raw(items, [], SpikeDay(0), s) == [];
    assert Buckets(p) == [];
  }

  lemma KeyDecidesAll(items: seq<LineItem>, n: nat)
    requires KeyDecides(items, n) && n >= 2
    ensures KeyDetermines(items)
  {
    forall u, v | u in items && v in items && u.key == v.key
      ensures u == v
    {
      assert Alike(u, v, n);
    }
  }

  /** In terms of the estate: when no two resources bill a line under one key, any two walks of it and
      any two sorts give the same records. */
  lemma NoClashNoOrder(a: seq<Resource>, b: seq<Resource>, x: seq<LineItem>, y: seq<LineItem>,
          p: Period, s: Stream)
    requires multiset(a) == multiset(b) && forall i, j | 0 <= i < j < |a| :: !Clash(a[i], a[j])
    requires Arranged(x, a) && Arranged(y, b)
    ensures Series(x, p, TotalMonthlyCost(a), s) == Series(y, p, TotalMonthlyCost(b), s)
  {
    KeysDistinctIff(a);
    DistinctDetermine(LineItems(a));
    WalkOrderIrrelevant(a, b, x, y, p, s);
  }
}

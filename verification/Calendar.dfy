/** UTC days, and the daily buckets of a period (dailyBuckets in internal/adapters/awssim/cost.go).
    An instant is a count of nanoseconds from 1 January 1970 UTC, which was a Thursday. Days are counted
    from it too, and a bucket is named by the midnight it begins at. A period is counted in days between
    its truncated ends, and one of some length that reaches no other midnight has the day it begins in. */
module Calendar {

  const DAY := 86_400_000_000_000

  type Instant = int

  datatype Period = Period(start: Instant, end: Instant)

  function DayOf(t: Instant): int { t / DAY }

  function MidnightOf(day: int): Instant { day * DAY }

  /** time.Date with the time of day zeroed. */
  function Truncate(t: Instant): Instant { MidnightOf(DayOf(t)) }

  /** 0 is Sunday; 1 January 1970 was a Thursday. */
  function Weekday(t: Instant): int { (DayOf(t) + 4) % 7 }

  function DayCount(p: Period): nat {
    if p.start >= p.end then 0
    else if DayOf(p.end) > DayOf(p.start) then DayOf(p.end) - DayOf(p.start)
    else 1
  }

  /** n midnights, a day apart. */
  function Midnights(first: int, n: nat): (days: seq<Instant>)
    ensures |days| == n && forall i | 0 <= i < n :: days[i] == MidnightOf(first + i)
  {
    seq(n, i => MidnightOf(first + i))
  }

  function Buckets(p: Period): seq<Instant> {
    Midnights(DayOf(p.start), DayCount(p))
  }

  /** A zero period has its end no later than its start, so the one test covers both. */
  method DailyBuckets(p: Period) returns (days: seq<Instant>)
    ensures days == Buckets(p)
    ensures days == [] <==> p.start >= p.end
    ensures forall i | 0 < i < |days| :: days[i] == days[i-1] + 86_400_000_000_000
    ensures days != [] ==>
      var day, first, last := 86_400_000_000_000, days[0], days[|days|-1];
      && first % day == 0 && first <= p.start < first + day
      && p.end < last + 2 * day && (|days| > 1 ==> last + day <= p.end)
  {
    if p.start >= p.end {
      return [];
    }
    var start, end := Truncate(p.start), Truncate(p.end);
    if end <= start {
      end := start + DAY;
    }
    days := [];
    var d := start;
    while d < end
      invariant d == MidnightOf(DayOf(p.start) + |days|) && d <= end == MidnightOf(DayOf(p.start) + DayCount(p))
      invariant days == Midnights(DayOf(p.start), |days|)
      decreases end - d
    {
      days := days + [d];
      d := d + DAY;
    }
  }

  /** The midnights a bucket list holds are those of the days from the start's day on, and the
      bucket of a day is the half-open day itself. */
  lemma BucketOf(p: Period, t: Instant)
    ensures Truncate(t) <= t < Truncate(t) + DAY
    ensures Truncate(t) in Buckets(p) <==> DayOf(p.start) <= DayOf(t) < DayOf(p.start) + DayCount(p)
  {
    if DayOf(p.start) <= DayOf(t) < DayOf(p.start) + DayCount(p) {
      assert Buckets(p)[DayOf(t) - DayOf(p.start)] == Truncate(t);
    }
  }

  /** Every instant of the half-open period has its day bucketed just when the period ends at a
      midnight, or on the day it starts: otherwise the last day's beginning has no bucket. */
  lemma CoversIff(p: Period)
    requires p.start < p.end
    ensures (forall t | p.start <= t < p.end :: Truncate(t) in Buckets(p)) <==>
      p.end == Truncate(p.end) || DayOf(p.start) == DayOf(p.end)
  {
    if p.end == Truncate(p.end) || DayOf(p.start) == DayOf(p.end) {
      forall t | p.start <= t < p.end
        ensures Truncate(t) in Buckets(p)
      {
        BucketOf(p, t);
      }
    } else {
      BucketOf(p, Truncate(p.end));
      assert p.start <= Truncate(p.end) < p.end;
    }
  }

  /** No bucket lies outside the days the period touches. */
  lemma BucketsTouchPeriod(p: Period, d: Instant)
    requires d in Buckets(p)
    ensures exists t :: p.start <= t < p.end && Truncate(t) == d
  {
    var i :| 0 <= i < |Buckets(p)| && Buckets(p)[i] == d;
    if i == 0 {
      assert Truncate(p.start) == d;
    } else {
      assert p.start <= d < p.end && Truncate(d) == d;
    }
  }

  /** Two adjoining periods bucket into what the whole does exactly when the three endpoints
      fall on three different days. */
  lemma SplitsIff(a: Instant, b: Instant, c: Instant)
    requires a < b < c
    ensures Buckets(Period(a, b)) + Buckets(Period(b, c)) == Buckets(Period(a, c)) <==>
      DayOf(a) < DayOf(b) < DayOf(c)
  {
    var left, right, whole := Buckets(Period(a, b)), Buckets(Period(b, c)), Buckets(Period(a, c));
    if DayOf(a) < DayOf(b) < DayOf(c) {
      assert forall i | 0 <= i < |whole| :: (left + right)[i] == whole[i];
    } else {
      assert |left + right| != |whole|;
    }
  }
}

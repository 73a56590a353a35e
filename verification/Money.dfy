/** Integer micro-dollar amounts (internal/domain/core/money.go), with float64 read as real. An amount
    is rounded exactly where the source makes an int64 of a float64: when dollars become micro-dollars, and
    when an amount is scaled by a factor. Everything else is exact here, and what the roundings of a
    conversion and of a rescale after it can come to together is stated as a bound, which is what the
    reconciliation of a series rests on. */
module Money {

  const MICROS_PER_UNIT := 1000000.0

  /** math.Round: half away from zero. */
  function Round(x: real): int {
    if x >= 0.0 then (x + 0.5).Floor else -((0.5 - x).Floor)
  }

  function USDollars(units: real): int {
    Round(units * MICROS_PER_UNIT)
  }

  function Units(micros: int): real {
    micros as real / MICROS_PER_UNIT
  }

  function Scale(micros: int, factor: real): int {
    Round(micros as real * factor)
  }

  /** Rounding moves an amount by at most half a micro, a tie away from zero; integers stay put
      and order is kept. */
  lemma RoundNearest(x: real)
    ensures -0.5 <= Round(x) as real - x <= 0.5
    ensures Round(x) as real - x == 0.5 ==> x > 0.0
    ensures Round(x) as real - x == -0.5 ==> x < 0.0
  {
    if x < 0.0 {
      var f := (0.5 - x).Floor;
      assert f as real <= 0.5 - x < f as real + 1.0;
    }
  }

  lemma RoundInteger(n: int)
    ensures Round(n as real) == n
  {
    RoundNearest(n as real);
    assert n - 1 < Round(n as real) < n + 1;
  }

  lemma RoundMonotone(x: real, y: real)
    requires x <= y
    ensures Round(x) <= Round(y)
  {
    if 0.0 <= x {
      assert (x + 0.5).Floor <= (y + 0.5).Floor;
    } else if y < 0.0 {
      assert (0.5 - y).Floor <= (0.5 - x).Floor;
    } else {
      assert (0.5 - x).Floor >= 0 && (y + 0.5).Floor >= 0;
    }
  }

  /** Writing an amount out in dollars and reading it back is the identity. */
  lemma UnitsRoundTrip(micros: int)
    ensures USDollars(Units(micros)) == micros
    ensures Units(micros) * 1000000.0 == micros as real
  {
    assert Units(micros) * MICROS_PER_UNIT == micros as real;
    RoundInteger(micros);
  }

  /** Rounding an amount and rounding it again after a rescale: the two errors, added up. */
  lemma ScaleError(exact: real, factor: real)
    requires factor >= 0.0
    ensures -(factor + 1.0) / 2.0 <= Scale(Round(exact), factor) as real - exact * factor <= (factor + 1.0) / 2.0
  {
    RoundNearest(exact);
    RescaleError(Round(exact), exact, factor);
  }

  lemma RescaleError(once: int, exact: real, factor: real)
    requires factor >= 0.0 && -0.5 <= once as real - exact <= 0.5
    ensures -(factor + 1.0) / 2.0 <= Scale(once, factor) as real - exact * factor <= (factor + 1.0) / 2.0
  {
    ProductError(once as real - exact, factor);
    TwoErrors(once as real * factor, exact * factor, (once as real - exact) * factor, factor);
  }

  lemma ProductError(drift: real, factor: real)
    requires factor >= 0.0 && -0.5 <= drift <= 0.5
    ensures -factor / 2.0 <= drift * factor <= factor / 2.0
  {
    assert (drift + 0.5) * factor >= 0.0 && (0.5 - drift) * factor >= 0.0;
  }

  lemma TwoErrors(once: real, exact: real, drift: real, factor: real)
    requires drift == once - exact && -factor / 2.0 <= drift <= factor / 2.0
    ensures -(factor + 1.0) / 2.0 <= Round(once) as real - exact <= (factor + 1.0) / 2.0
  {
    RoundNearest(once);
  }
}

/** The power term of the bill (`get_power_price`): contracted power times
    the yearly tariff coefficients, pro rata over the billed days. */
module Tariff {
  import opened Outcomes

  /** Yearly coefficients per contracted kW: peak, valley and the retailer's margin. */
  const PeakCoefficient: real := 30.67266
  const ValleyCoefficient: real := 1.4243591
  const MarginCoefficient: real := 3.113
  const DaysPerYear: real := 365.0

  /** The valley power actually billed: the peak power when none is given. */
  function ValleyOf(peakKw: real, valleyKw: Option<real>): real {
    if valleyKw.None? then peakKw else valleyKw.value
  }

  /** The yearly rate per kW for the given peak and valley powers. */
  function YearlyPowerRate(peakKw: real, valleyKw: real): real {
    peakKw * (PeakCoefficient + MarginCoefficient) + valleyKw * ValleyCoefficient
  }

  /** `get_power_price(days, pw_punta, pw_valle=None)`: the yearly rate of the
      billed powers times the fraction of the year billed, so zero for no
      days. */
  function PowerPrice(days: int, peakKw: real, valleyKw: Option<real>): (r: real)
    ensures r == YearlyPowerRate(peakKw, ValleyOf(peakKw, valleyKw)) * days as real / DaysPerYear
    ensures days == 0 ==> r == 0.0
  {
    var valley := ValleyOf(peakKw, valleyKw);
    assert peakKw * PeakCoefficient + valley * ValleyCoefficient + peakKw * MarginCoefficient
        == YearlyPowerRate(peakKw, valley);
    (peakKw * PeakCoefficient + valley * ValleyCoefficient + peakKw * MarginCoefficient) * days as real / DaysPerYear
  }

  /** Omitting the valley power is the same as passing the peak power. */
  lemma PowerPriceDefaultValley(days: int, peakKw: real)
    ensures PowerPrice(days, peakKw, None) == PowerPrice(days, peakKw, Some(peakKw))
  {
  }

  /** Billing two spans separately costs the same as billing them together. */
  lemma PowerPriceAdditive(a: int, b: int, peakKw: real, valleyKw: Option<real>)
    ensures PowerPrice(a + b, peakKw, valleyKw) == PowerPrice(a, peakKw, valleyKw) + PowerPrice(b, peakKw, valleyKw)
  {
    var valley := ValleyOf(peakKw, valleyKw);
    var rate := peakKw * PeakCoefficient + valley * ValleyCoefficient + peakKw * MarginCoefficient;
    Distribute(rate, a as real, b as real);
  }

  lemma Distribute(r: real, x: real, y: real)
    ensures r * (x + y) / DaysPerYear == r * x / DaysPerYear + r * y / DaysPerYear
  {
    assert r * (x + y) == r * x + r * y;
  }

  /** With non-negative powers the term grows with the number of days. */
  lemma PowerPriceMonotone(a: int, b: int, peakKw: real, valleyKw: Option<real>)
    requires 0 <= a <= b
    requires peakKw >= 0.0 && (valleyKw.Some? ==> valleyKw.value >= 0.0)
    ensures 0.0 <= PowerPrice(a, peakKw, valleyKw) <= PowerPrice(b, peakKw, valleyKw)
  {
    var valley := ValleyOf(peakKw, valleyKw);
    var rate := peakKw * PeakCoefficient + valley * ValleyCoefficient + peakKw * MarginCoefficient;
    assert rate >= 0.0;
    ScaleMonotone(rate, a as real, b as real);
  }

  lemma ScaleMonotone(r: real, x: real, y: real)
    requires r >= 0.0 && 0.0 <= x <= y
    ensures 0.0 <= r * x / DaysPerYear <= r * y / DaysPerYear
  {
    assert r * x <= r * y;
  }
}

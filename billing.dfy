/** The invoice computed by `parse_csv` from the meter's hourly records: the
    energy term, the power term over the distinct billed dates, the 25% social
    discount, the electricity tax, the meter rental and the VAT at the mean of
    the per-date rates. */
module Billing {
  import opened Outcomes
  import opened Text
  import opened Money
  import opened Calendar
  import opened Tariff
  import opened Prices

  /** One row of the meter export, already split: date `D/M/Y` as written,
      hour label as written, and kWh with a decimal comma. */
  datatype Record = Record(date: string, hour: string, kwh: string)

  /** The bill, every field as `parse_csv` computes it. */
  datatype Invoice = Invoice(
    energy: real,          // price_kwh, rounded once
    power: real,           // price_kw
    discount: real,        // descuento_bono
    subtotal: real,
    electricityTax: real,  // imp_ele
    meterRental: real,     // alq_contador
    total: real,           // before VAT, not rounded
    vatRate: real,         // iva, the mean rate
    vat: real,             // iva_valor
    grandTotal: real)      // total_iva

  const SocialDiscountRate: real := 0.25
  const ElectricityTaxRate: real := 0.0511269632
  const MeterRentalPerYear: real := 9.72
  const ContractedPowerKw: real := 4.6

  /** `set([r[1] for r in reader])`: the distinct dates of the records. */
  function DatesOf(records: seq<Record>): (dates: set<string>)
    ensures forall i :: 0 <= i < |records| ==> records[i].date in dates
    ensures forall d :: d in dates ==> exists i :: 0 <= i < |records| && records[i].date == d
  {
    set r | r in records :: r.date
  }

  // ---------------------------------------------------------------------
  // Energy term
  // ---------------------------------------------------------------------

  /** `round(prices[r[1]][hora], 6) * float(r[3].replace(',', '.'))`: the kWh
      are read first, then the price is looked up (KeyError when the date or
      the hour has none). A non-negative reading at non-negative prices costs
      a non-negative amount. */
  function RecordCost(rec: Record, prices: PriceTable): (r: Result<real>)
    ensures r.Ok? <==> && ParseReal(Replace(rec.kwh, ',', '.')).Ok?
                       && rec.date in prices && rec.hour in prices[rec.date]
    ensures r.Err? && ParseReal(Replace(rec.kwh, ',', '.')).Ok? ==> r.error == MissingPrice
    ensures r.Ok? ==> r.value == HourCost(prices[rec.date][rec.hour],
                                          ParseReal(Replace(rec.kwh, ',', '.')).value)
    ensures r.Ok? && NonNegativePrices(prices) && !Negative(rec.kwh) ==> r.value >= 0.0
  {
    var text := Replace(rec.kwh, ',', '.');
    assert |text| > 0 ==> text[0] == (if rec.kwh[0] == ',' then '.' else rec.kwh[0]);
    var kwh :- ParseReal(text);
    if rec.date !in prices || rec.hour !in prices[rec.date] then Err(MissingPrice)
    else
      var price := prices[rec.date][rec.hour];
      CostNonNegative(price, kwh);
      Ok(HourCost(price, kwh))
  }

  /** `price = round(prices[r[1]][hora], 6)` times `kwh`: the cost of one
      reading at one hourly price. */
  function HourCost(price: real, kwh: real): real {
    RoundTo(price, 6) * kwh
  }

  /** A non-negative price rounded to millionths, times a non-negative
      reading, is non-negative. */
  lemma CostNonNegative(price: real, kwh: real)
    ensures price >= 0.0 && kwh >= 0.0 ==> HourCost(price, kwh) >= 0.0
  {
    if price >= 0.0 && kwh >= 0.0 {
      RoundToNonNegative(price, 6);
    }
  }

  /** The size of a reading, whatever its sign. */
  function Magnitude(x: real): (m: real)
    ensures m >= 0.0 && (m == x || m == -x)
  {
    if x < 0.0 then -x else x
  }

  /** The cost of a reading at the unrounded price. */
  function ExactCost(price: real, kwh: real): real {
    price * kwh
  }

  /** Rounding the price to millionths moves the cost of `kwh` kilowatt-hours
      by at most half a millionth per kilowatt-hour. */
  lemma CostRounding(price: real, kwh: real)
    ensures ExactCost(price, kwh) - 0.0000005 * Magnitude(kwh) <= HourCost(price, kwh)
    ensures HourCost(price, kwh) <= ExactCost(price, kwh) + 0.0000005 * Magnitude(kwh)
  {
    RoundToMicro(price);
    var e := RoundTo(price, 6) - price;
    var size := Magnitude(kwh);
    assert HourCost(price, kwh) == ExactCost(price, kwh) + e * kwh;
    if kwh >= 0.0 {
      assert size == kwh;
      assert (0.0000005 - e) * kwh >= 0.0;
      assert (e + 0.0000005) * kwh >= 0.0;
    } else {
      assert size == -kwh;
      assert (0.0000005 - e) * -kwh >= 0.0;
      assert (e + 0.0000005) * -kwh >= 0.0;
    }
  }

  /** A record's cost is the exact price times the reading, give or take half
      a millionth per kilowatt-hour read. */
  lemma RecordCostRounding(rec: Record, prices: PriceTable)
    requires RecordCost(rec, prices).Ok?
    ensures ExactCost(prices[rec.date][rec.hour], ParseReal(Replace(rec.kwh, ',', '.')).value)
            - 0.0000005 * Magnitude(ParseReal(Replace(rec.kwh, ',', '.')).value)
            <= RecordCost(rec, prices).value
    ensures RecordCost(rec, prices).value
            <= ExactCost(prices[rec.date][rec.hour], ParseReal(Replace(rec.kwh, ',', '.')).value)
               + 0.0000005 * Magnitude(ParseReal(Replace(rec.kwh, ',', '.')).value)
  {
    CostRounding(prices[rec.date][rec.hour], ParseReal(Replace(rec.kwh, ',', '.')).value);
  }

  /** The cost of a record against a fixed price table. */
  function CostIn(prices: PriceTable): Record -> Result<real> {
    rec => RecordCost(rec, prices)
  }

  /** Adds up the costs of the records in order, stopping at the first
      record whose cost is an error: the sum exists exactly when every cost
      does, and otherwise carries the error of the first record whose cost is
      one. */
  function SumBy(records: seq<Record>, cost: Record -> Result<real>): (r: Result<real>)
    ensures r.Ok? <==> forall i :: 0 <= i < |records| ==> cost(records[i]).Ok?
    ensures r.Err? ==>
      exists i :: 0 <= i < |records| && cost(records[i]) == Err(r.error)
                  && forall j :: 0 <= j < i ==> cost(records[j]).Ok?
    decreases |records|
  {
    if records == [] then Ok(0.0)
    else
      var front := records[..|records| - 1];
      assert forall i :: 0 <= i < |front| ==> front[i] == records[i];
      var sum :- SumBy(front, cost);
      var last :- cost(records[|records| - 1]);
      Ok(sum + last)
  }

  /** The running sum `price_kwh` over the records in order: it exists
      exactly when every record has a reading and a price, and otherwise
      carries the error of the first record that raises. */
  function EnergySum(records: seq<Record>, prices: PriceTable): (r: Result<real>)
    ensures r.Ok? <==> forall i :: 0 <= i < |records| ==> RecordCost(records[i], prices).Ok?
    ensures r.Err? ==>
      exists i :: 0 <= i < |records| && RecordCost(records[i], prices) == Err(r.error)
                  && forall j :: 0 <= j < i ==> RecordCost(records[j], prices).Ok?
  {
    SumBy(records, CostIn(prices))
  }

  /** Once a prefix raises, the whole run raises the same error. */
  lemma {:induction false} SumByPrefixError(records: seq<Record>, cost: Record -> Result<real>, k: nat)
    requires k <= |records|
    requires SumBy(records[..k], cost).Err?
    ensures SumBy(records, cost) == SumBy(records[..k], cost)
    decreases |records| - k
  {
    if k < |records| {
      assert records[..k + 1][..k] == records[..k];
      SumByPrefixError(records, cost, k + 1);
    } else {
      assert records[..k] == records;
    }
  }

  /** The sum over two runs is the sum of the two sums. */
  lemma {:induction false} SumByAppend(a: seq<Record>, b: seq<Record>, cost: Record -> Result<real>)
    requires SumBy(a, cost).Ok? && SumBy(b, cost).Ok?
    ensures SumBy(a + b, cost) == Ok(SumBy(a, cost).value + SumBy(b, cost).value)
    decreases |b|
  {
    if b == [] {
      assert a + b == a;
    } else {
      var n := |b| - 1;
      assert (a + b)[..|a + b| - 1] == a + b[..n];
      assert (a + b)[|a + b| - 1] == b[n];
      SumByAppend(a, b[..n], cost);
    }
  }

  /** Non-negative costs add up to a non-negative sum. */
  lemma {:induction false} SumByNonNegative(records: seq<Record>, cost: Record -> Result<real>)
    requires forall i :: 0 <= i < |records| && cost(records[i]).Ok? ==> cost(records[i]).value >= 0.0
    requires SumBy(records, cost).Ok?
    ensures SumBy(records, cost).value >= 0.0
    decreases |records|
  {
    if records != [] {
      var n := |records| - 1;
      assert forall i :: 0 <= i < n ==> records[..n][i] == records[i];
      SumByNonNegative(records[..n], cost);
    }
  }

  /** The first loop of `parse_csv`: accumulates the cost of every record,
      stopping at the first that raises. */
  method SumCosts(records: seq<Record>, cost: Record -> Result<real>) returns (r: Result<real>)
    ensures r == SumBy(records, cost)
  {
    var total := 0.0;
    var i := 0;
    while i < |records|
      invariant 0 <= i <= |records|
      invariant SumBy(records[..i], cost) == Ok(total)
    {
      assert records[..i + 1][..i] == records[..i];
      var c := cost(records[i]);
      if c.Err? {
        SumByPrefixError(records, cost, i + 1);
        return Err(c.error);
      }
      total := total + c.value;
      i := i + 1;
    }
    assert records[..i] == records;
    return Ok(total);
  }

  /** Prices that are never negative. */
  predicate NonNegativePrices(prices: PriceTable) {
    forall d, h :: d in prices && h in prices[d] ==> prices[d][h] >= 0.0
  }

  /** With non-negative prices and readings the energy term is non-negative. */
  lemma EnergySumNonNegative(records: seq<Record>, prices: PriceTable)
    requires NonNegativePrices(prices)
    requires forall i :: 0 <= i < |records| ==> !Negative(records[i].kwh)
    requires EnergySum(records, prices).Ok?
    ensures EnergySum(records, prices).value >= 0.0
  {
    var cost := CostIn(prices);
    forall i | 0 <= i < |records| && cost(records[i]).Ok?
      ensures cost(records[i]).value >= 0.0
    {
    }
    SumByNonNegative(records, cost);
  }

  /** Rounding each cost to cents and adding is not rounding the sum: two
      costs of 0.004 add up to 0.01 but round to 0.00 each. */
  lemma RoundingOnceDiffers()
    ensures RoundTo(0.004 + 0.004, 2) == 0.01
    ensures RoundTo(0.004, 2) + RoundTo(0.004, 2) == 0.0
  {
    CentsRound(0.008);
    CentsRound(0.004);
  }

  // ---------------------------------------------------------------------
  // VAT rate
  // ---------------------------------------------------------------------

  /** Every date has a rate. */
  predicate AllDefined(dates: set<string>, rate: string -> Result<real>) {
    forall d :: d in dates ==> rate(d).Ok?
  }

  /** The sum of the rates of a set of dates. */
  ghost function SumOver(dates: set<string>, rate: string -> Result<real>): real
    requires AllDefined(dates, rate)
    decreases |dates|
  {
    if dates == {} then 0.0
    else
      var d :| d in dates;
      rate(d).value + SumOver(dates - {d}, rate)
  }

  /** The sum does not depend on the order the dates are visited in: any
      date can be taken out first. */
  lemma {:induction false} SumOverRemove(dates: set<string>, rate: string -> Result<real>, d: string)
    requires AllDefined(dates, rate) && d in dates
    ensures SumOver(dates, rate) == rate(d).value + SumOver(dates - {d}, rate)
    decreases |dates|
  {
    var x :| x in dates && SumOver(dates, rate) == rate(x).value + SumOver(dates - {x}, rate);
    if x != d {
      SumOverRemove(dates - {x}, rate, d);
      SumOverRemove(dates - {d}, rate, x);
      assert dates - {x} - {d} == dates - {d} - {x};
    }
  }

  /** Adding one more date to the visited ones adds its rate to the sum. */
  lemma SumOverAdd(seen: set<string>, rate: string -> Result<real>, date: string)
    requires AllDefined(seen, rate) && date !in seen && rate(date).Ok?
    ensures AllDefined(seen + {date}, rate)
    ensures SumOver(seen + {date}, rate) == SumOver(seen, rate) + rate(date).value
  {
    assert (seen + {date}) - {date} == seen;
    SumOverRemove(seen + {date}, rate, date);
  }

  /** The second loop of `parse_csv`: adds up the rate of every date, in any
      order, stopping at the first that raises. */
  method SumRatesOf(dates: set<string>, rate: string -> Result<real>) returns (r: Result<real>)
    ensures r.Ok? <==> AllDefined(dates, rate)
    ensures r.Ok? ==> r.value == SumOver(dates, rate)
    ensures r.Err? ==> exists d :: d in dates && rate(d) == Err(r.error)
  {
    var sum := 0.0;
    var todo := dates;
    while todo != {}
      invariant todo <= dates
      invariant AllDefined(dates - todo, rate)
      invariant sum == SumOver(dates - todo, rate)
      decreases |todo|
    {
      var date :| date in todo;
      var rd := rate(date);
      if rd.Err? {
        assert date in dates && rate(date) == Err(rd.error);
        return Err(rd.error);
      }
      SumOverAdd(dates - todo, rate, date);
      assert dates - (todo - {date}) == (dates - todo) + {date};
      todo := todo - {date};
      sum := sum + rd.value;
    }
    assert dates - todo == dates;
    return Ok(sum);
  }

  /** Every date's `get_iva` succeeds. */
  predicate AllRatesParse(dates: set<string>) {
    AllDefined(dates, VatRate)
  }

  /** The sum of `get_iva` over a set of dates. */
  ghost function SumRates(dates: set<string>): real
    requires AllRatesParse(dates)
  {
    SumOver(dates, VatRate)
  }

  /** Every date contributes between the reduced and the standard rate. */
  lemma {:induction false} SumRatesBounds(dates: set<string>)
    requires AllRatesParse(dates)
    ensures ReducedRate * |dates| as real <= SumRates(dates) <= StandardRate * |dates| as real
    decreases |dates|
  {
    if dates != {} {
      var d :| d in dates;
      SumOverRemove(dates, VatRate, d);
      SumRatesBounds(dates - {d});
      VatRateBounds(d);
    }
  }

  /** A mean of rates each between the reduced and the standard rate lies
      between them too. */
  lemma MeanRateBounds(sum: real, count: nat)
    requires count > 0
    requires ReducedRate * count as real <= sum <= StandardRate * count as real
    ensures ReducedRate <= sum / count as real <= StandardRate
  {
    var n := count as real;
    var m := sum / n;
    assert sum == m * n;
    ScaleCancel(ReducedRate, m, n, sum);
    ScaleCancel(m, StandardRate, n, StandardRate * n);
  }

  /** For a positive n, a * n <= b * n only when a <= b. */
  lemma ScaleCancel(a: real, b: real, n: real, bn: real)
    requires n > 0.0 && bn == b * n && a * n <= bn
    ensures a <= b
  {
    assert (b - a) * n == bn - a * n;
  }

  /** `iva = iva / len(dates)`: the mean of the per-date rates, which lies
      between the reduced and the standard rate; ZeroDivisionError when
      there are no dates. */
  method MeanVatRate(dates: set<string>) returns (r: Result<real>)
    ensures r.Ok? <==> AllRatesParse(dates) && |dates| > 0
    ensures r.Ok? ==> r.value == SumRates(dates) / |dates| as real
    ensures r.Ok? ==> ReducedRate <= r.value <= StandardRate
    ensures r.Err? ==> (|dates| == 0 && r.error == DivisionByZero)
                       || exists d :: d in dates && VatRate(d) == Err(r.error)
  {
    var sum :- SumRatesOf(dates, VatRate);
    if |dates| == 0 {
      return Err(DivisionByZero);
    }
    SumRatesBounds(dates);
    MeanRateBounds(sum, |dates|);
    return Ok(sum / |dates| as real);
  }

  // ---------------------------------------------------------------------
  // The invoice
  // ---------------------------------------------------------------------

  /** `price_kw`: the power term for 4.6 kW over the billed days, to the cent. */
  function PowerTerm(days: nat): (r: real)
    ensures OnGrid(r, 2) && r >= 0.0
    ensures PowerPrice(days, ContractedPowerKw, None) - 0.005 <= r <= PowerPrice(days, ContractedPowerKw, None) + 0.005
  {
    PowerPriceMonotone(0, days, ContractedPowerKw, None);
    Cents(PowerPrice(days, ContractedPowerKw, None))
  }

  /** `descuento_bono`: a quarter of power plus energy, to the cent. */
  function SocialDiscount(power: real, energy: real): (r: real)
    ensures OnGrid(r, 2)
    ensures SocialDiscountRate * (power + energy) - 0.005 <= r <= SocialDiscountRate * (power + energy) + 0.005
    ensures power + energy >= 0.0 ==> r >= 0.0
  {
    Cents(SocialDiscountRate * (power + energy))
  }

  /** `imp_ele`: the electricity tax on the subtotal, to the cent. */
  function ElectricityTax(subtotal: real): (r: real)
    ensures OnGrid(r, 2)
    ensures ElectricityTaxRate * subtotal - 0.005 <= r <= ElectricityTaxRate * subtotal + 0.005
  {
    Cents(ElectricityTaxRate * subtotal)
  }

  /** `alq_contador`: the yearly meter rental pro rata over the billed days,
      to the cent. */
  function MeterRental(days: nat): (r: real)
    ensures OnGrid(r, 2)
    ensures MeterRentalPerYear * days as real / DaysPerYear - 0.005 <= r <= MeterRentalPerYear * days as real / DaysPerYear + 0.005
  {
    Cents(MeterRentalPerYear * days as real / DaysPerYear)
  }

  /** `iva_valor`: the VAT on the total, to the cent. */
  function VatAmount(vatRate: real, total: real): (r: real)
    ensures OnGrid(r, 2)
    ensures vatRate * total - 0.005 <= r <= vatRate * total + 0.005
  {
    Cents(vatRate * total)
  }

  /** Lines 77 to 99 of `parse_csv`, from the raw energy sum, the number of
      distinct dates and the mean VAT rate. Every amount is a whole number of
      cents, so the roundings of the subtotal and of the grand total change
      nothing: the discount is subtracted whatever its sign, and the grand
      total is the total plus its VAT. */
  function MakeInvoice(energyRaw: real, days: nat, vatRate: real): (inv: Invoice)
    ensures inv.energy == Cents(energyRaw) && inv.power == PowerTerm(days)
    ensures inv.discount == SocialDiscount(inv.power, inv.energy)
    ensures inv.subtotal == inv.power + inv.energy - inv.discount
    ensures inv.electricityTax == ElectricityTax(inv.subtotal)
    ensures inv.meterRental == MeterRental(days)
    ensures inv.total == inv.subtotal + inv.electricityTax + inv.meterRental
    ensures OnGrid(inv.total, 2)
    ensures inv.vatRate == vatRate && inv.vat == VatAmount(inv.vatRate, inv.total)
    ensures inv.grandTotal == inv.total + inv.vat
    ensures OnGrid(inv.grandTotal, 2)
  {
    var energy := Cents(energyRaw);
    var power := PowerTerm(days);
    var discount := SocialDiscount(power, energy);
    CentsAddSub(power, energy);
    CentsAddSub(power + energy, discount);
    CentsFixed(power + energy - discount);
    var subtotal := Cents(power + energy - discount);
    var tax := ElectricityTax(subtotal);
    var rental := MeterRental(days);
    CentsAddSub(subtotal, tax);
    CentsAddSub(subtotal + tax, rental);
    var total := subtotal + tax + rental;
    var vat := VatAmount(vatRate, total);
    CentsAddSub(total, vat);
    CentsFixed(total + vat);
    Invoice(energy, power, discount, subtotal, tax, rental, total, vatRate, vat, Cents(total + vat))
  }

  /** The social discount is a quarter of energy plus power, to the nearest
      cent, and is never negative when the energy term is not. */
  lemma InvoiceDiscount(energyRaw: real, days: nat, vatRate: real)
    requires energyRaw >= 0.0
    ensures var inv := MakeInvoice(energyRaw, days, vatRate);
            && 0.0 <= inv.discount
            && SocialDiscountRate * (inv.power + inv.energy) - 0.005 <= inv.discount
            && inv.discount <= SocialDiscountRate * (inv.power + inv.energy) + 0.005
  {
  }

  // ---------------------------------------------------------------------
  // The whole computation
  // ---------------------------------------------------------------------

  /** What `parse_csv` computes from the records and the archive documents;
      None when it raises. Without records there are no dates and the mean
      VAT rate divides by zero; a bill's VAT rate lies between the reduced
      and the standard rate. */
  ghost function BillSpec(records: seq<Record>, docs: Archive): (r: Option<Invoice>)
    ensures records == [] ==> r.None?
    ensures r.Some? ==> ReducedRate <= r.value.vatRate <= StandardRate
  {
    var dates := DatesOf(records);
    assert records == [] ==> dates == {};
    if !AllTablesParse(dates, docs) then None
    else
      var energy := EnergySum(records, PriceTableOf(dates, docs));
      if energy.Err? || !AllRatesParse(dates) || |dates| == 0 then None
      else
        SumRatesBounds(dates);
        MeanRateBounds(SumRates(dates), |dates|);
        Some(MakeInvoice(energy.value, |dates|, SumRates(dates) / |dates| as real))
  }

  /** When every step succeeds, the bill is the invoice of their results. */
  lemma BillSpecOk(records: seq<Record>, docs: Archive, energy: real, vatRate: real)
    requires AllTablesParse(DatesOf(records), docs)
    requires EnergySum(records, PriceTableOf(DatesOf(records), docs)) == Ok(energy)
    requires AllRatesParse(DatesOf(records)) && |DatesOf(records)| > 0
    requires vatRate == SumRates(DatesOf(records)) / |DatesOf(records)| as real
    ensures BillSpec(records, docs) == Some(MakeInvoice(energy, |DatesOf(records)|, vatRate))
  {
  }

  /** There is no bill when the price tables, the energy loop, the VAT loop
      or the division raises. */
  lemma BillSpecNone(records: seq<Record>, docs: Archive)
    ensures !AllTablesParse(DatesOf(records), docs) ==> BillSpec(records, docs).None?
    ensures (&& AllTablesParse(DatesOf(records), docs)
             && EnergySum(records, PriceTableOf(DatesOf(records), docs)).Err?)
            ==> BillSpec(records, docs).None?
    ensures (&& AllTablesParse(DatesOf(records), docs)
             && !(AllRatesParse(DatesOf(records)) && |DatesOf(records)| > 0))
            ==> BillSpec(records, docs).None?
  {
  }

  /** `parse_csv` without the file reading and the printing. */
  method Bill(records: seq<Record>, docs: Archive) returns (r: Result<Invoice>)
    ensures r.Ok? <==> BillSpec(records, docs).Some?
    ensures r.Ok? ==> r.value == BillSpec(records, docs).value
    ensures r.Err? && AllTablesParse(DatesOf(records), docs)
              && EnergySum(records, PriceTableOf(DatesOf(records), docs)).Err?
            ==> r.error == EnergySum(records, PriceTableOf(DatesOf(records), docs)).error
  {
    BillSpecNone(records, docs);
    var dates := DatesOf(records);
    var prices := GetPrice(dates, docs);
    if prices.Err? {
      return Err(prices.error);
    }
    var energy := SumCosts(records, CostIn(prices.value));
    if energy.Err? {
      return Err(energy.error);
    }
    var vatRate := MeanVatRate(dates);
    if vatRate.Err? {
      return Err(vatRate.error);
    }
    BillSpecOk(records, docs, energy.value, vatRate.value);
    return Ok(MakeInvoice(energy.value, |dates|, vatRate.value));
  }

  /** A record whose date does not split into three parts gets no price table,
      so its price lookup raises and there is no bill. */
  lemma BillMalformedDate(records: seq<Record>, docs: Archive, i: nat)
    requires i < |records| && !IsDmy(records[i].date)
    ensures BillSpec(records, docs) == None
  {
    var dates := DatesOf(records);
    if AllTablesParse(dates, docs) {
      var prices := PriceTableOf(dates, docs);
      assert records[i].date !in prices;
      assert RecordCost(records[i], prices).Err?;
    }
  }

  /** The lines of a bill: energy is the energy term rounded once, power and
      meter rental depend only on the number of distinct dates, and the VAT
      rate is the mean of the per-date rates. */
  lemma BillLines(records: seq<Record>, docs: Archive)
    requires BillSpec(records, docs).Some?
    ensures var dates, inv := DatesOf(records), BillSpec(records, docs).value;
            && EnergySum(records, PriceTableOf(dates, docs)).Ok?
            && inv.energy == Cents(EnergySum(records, PriceTableOf(dates, docs)).value)
            && inv.power == PowerTerm(|dates|)
            && inv.meterRental == MeterRental(|dates|)
            && inv.vatRate == SumRates(dates) / |dates| as real
  {
  }

  /** A record on a date already billed adds no date. */
  lemma DatesOfRepeat(records: seq<Record>, rec: Record)
    requires rec.date in DatesOf(records)
    ensures DatesOf(records + [rec]) == DatesOf(records)
  {
    forall d | d in DatesOf(records + [rec])
      ensures d in DatesOf(records)
    {
      var i :| 0 <= i < |records + [rec]| && (records + [rec])[i].date == d;
      if i < |records| {
        assert (records + [rec])[i] == records[i];
      }
    }
    forall d | d in DatesOf(records)
      ensures d in DatesOf(records + [rec])
    {
      var i :| 0 <= i < |records| && records[i].date == d;
      assert (records + [rec])[i] == records[i];
    }
  }

  /** Billing is per distinct date: two sets of readings over the same dates
      are billed the same power term, meter rental and VAT rate. */
  lemma BillSameDates(a: seq<Record>, b: seq<Record>, docs: Archive)
    requires DatesOf(a) == DatesOf(b)
    requires BillSpec(a, docs).Some? && BillSpec(b, docs).Some?
    ensures BillSpec(a, docs).value.power == BillSpec(b, docs).value.power
    ensures BillSpec(a, docs).value.meterRental == BillSpec(b, docs).value.meterRental
    ensures BillSpec(a, docs).value.vatRate == BillSpec(b, docs).value.vatRate
  {
    BillLines(a, docs);
    BillLines(b, docs);
  }
}

# factura_luz in Dafny

A model of `factura_luz.py`, a script that estimates a Spanish household
electricity bill under the regulated PVPC tariff. The script reads the
meter's hourly consumption export. It fetches the hourly PCB prices of every
billed day from the grid operator's archive. Then it prints the invoice:

- the energy term;
- the power term for 4.6 kW;
- the 25% social-bonus discount;
- the subtotal;
- the electricity tax;
- the meter rental;
- the VAT at the mean of the per-day rates;
- the grand total.

The model is split into modules that follow the script's functions:

- `Outcomes`: the errors the script can raise, as values (`Result`, `Option`).
  IndexError is `MissingField`. A ValueError from `int()`/`float()` is
  `NotANumber`. A ValueError from `datetime.date` is `InvalidDate`, and its
  OverflowError for a field beyond a C int is `Overflow`. KeyError is
  `MissingPrice`. ZeroDivisionError is `DivisionByZero`.
- `Text`: the parts of Python's `str.split`, `str.replace`, `int()`, `float()`
  and `str()` the script relies on.
- `Money`: `round(x, n)` on exact decimal values, with ties to even. It states
  the properties of rounding to cents (n = 2) and to millionths (n = 6).
- `Calendar`: parsing a `D/M/Y` string the way `get_iva` does, the VAT-rate
  rule (`get_iva`) and `year_days`.
- `Tariff`: the power-term formula `get_power_price`.
- `Prices`: `get_price`. It covers the date-to-archive-key conversion, the
  hour key of each PVPC entry and the per-date hour tables, built in place by
  a loop over the dates and an inner loop over the entries.
- `Billing`: the computation in `parse_csv`:
  - the loop that adds up the energy cost of every record;
  - the distinct dates;
  - every invoice line;
  - the loop that adds up the VAT rates, and the division that takes their
    mean;
  - the whole bill as one method, `Billing.Bill`, proved against a
    specification function `BillSpec`.

Amounts are exact `real`s. The exceptions the model covers are error results,
and each error result says which exception it stands for; the exceptions it
does not cover are listed under "Left out".

The two accumulation loops of `parse_csv` are methods. Each is proved against
a recursive specification function: `SumBy` for the energy term, `SumOver`
for the VAT rates. The properties are proved about those functions. Both
loops take the per-item computation as a function-valued parameter.
`Billing.Bill` instantiates them with the record cost under the price table
(`CostIn`) and with `get_iva` (`VatRate`).

The reduced VAT rate applies from 26 June 2021 to 31 December 2021, both days
included, as the code at `factura_luz.py:57` has it.

## Model

| member | source | states |
|---|---|---|
| Text.Split | factura_luz.py:33 | `str.split(sep)`: at least one part, and no part contains the separator |
| Text.JoinSplit | factura_luz.py:33 | joining the parts of a split with the separator gives back the string |
| Text.SplitJoin | factura_luz.py:33 | splitting a join of separator-free parts gives back the parts |
| Text.Split3 | factura_luz.py:33-35 | `d/m/y` with separator-free parts splits into exactly `[d, m, y]` |
| Text.SplitNoSep | factura_luz.py:39 | a string without the separator splits into itself alone |
| Text.SplitAt | factura_luz.py:39 | a separator after a separator-free prefix splits off that prefix as the first part |
| Text.Replace | factura_luz.py:40 | `str.replace` of one character keeps the length and every other character, leaves no old character behind, and leaves text without one unchanged |
| Text.DigitChar | factura_luz.py:40 | the digit written for a value below 10 is a digit with that value |
| Text.NatToString | factura_luz.py:40 | `str(n)` is a non-empty run of digits with no leading zero |
| Text.NatToStringValue | factura_luz.py:40 | the digits `str(n)` writes have the value n |
| Text.ParseInt | factura_luz.py:40 | `int(s)` succeeds exactly when s is an optional sign followed by at least one digit, and is non-negative without a minus sign |
| Text.ParseIntToString | factura_luz.py:40 | `int(str(i)) == i` for every integer |
| Text.ParseIntDigits | factura_luz.py:56 | `int()` of a run of digits is their decimal value, leading zeros included |
| Text.FractionValue | factura_luz.py:40 | the digits after the point add a value in [0, 1) |
| Text.ParseReal | factura_luz.py:74 | `float(s)` without a minus sign is non-negative |
| Text.ParseRealShape | factura_luz.py:40 | `float()` succeeds only on an optional sign followed by digits, or by digits, one point and digits, with at least one digit |
| Text.ParseRealDigits | factura_luz.py:74 | `float()` of a signed run of digits is their signed value |
| Text.ParseRealPoint | factura_luz.py:40 | `float()` of a signed `W.F` is the signed value of W plus the fraction F |
| Money.RoundHalfEven | factura_luz.py:77 | the nearest integer is within one half, a whole number is left as it is, and a tie goes to the even neighbour |
| Money.RoundHalfEvenMonotone | factura_luz.py:77 | nearest-integer rounding keeps the order of its arguments |
| Money.RoundTo | factura_luz.py:75-77 | `round(x, n)` is a whole number of units of 10^-n, at most half a unit from x, and x itself when x is already on that grid |
| Money.RoundToIdempotent | factura_luz.py:85 | rounding twice to the same precision is rounding once |
| Money.RoundToMonotone | factura_luz.py:75-77 | `round(x, n)` keeps the order of its arguments |
| Money.RoundToNonNegative | factura_luz.py:75-77 | rounding a non-negative amount gives a non-negative amount |
| Money.RoundToCents | factura_luz.py:77 | `round(x, 2)` is a whole number of cents within half a cent of x |
| Money.RoundToMicro | factura_luz.py:75 | `round(p, 6)` is a whole number of millionths within half a millionth of p |
| Money.CentsAddSub | factura_luz.py:85 | sums and differences of whole-cent amounts are whole-cent amounts |
| Money.Cents | factura_luz.py:77 | `round(x, 2)`: whole cents, within half a cent, and non-negative for non-negative x |
| Money.CentsFixed | factura_luz.py:85 | whole cents are unchanged by rounding to cents |
| Calendar.DaysInMonth | factura_luz.py:44 | April, June, September and November have 30 days, February 29 exactly in a leap year and 28 otherwise, every other month 31 |
| Calendar.MakeDate | factura_luz.py:56 | `datetime.date(y, m, d)` succeeds exactly on an existing date, raises OverflowError when a field does not fit a C int and ValueError otherwise |
| Calendar.ParseDmy | factura_luz.py:55-56 | a parsed `D/M/Y` string is a date that `datetime.date` accepts |
| Calendar.ParseDmyDecimal | factura_luz.py:55-56 | a date written `D/M/Y` in decimal reads back as that date: part 0 is the day, part 1 the month, part 2 the year |
| Calendar.ParseDmyDigits | factura_luz.py:55-56 | three runs of digits joined by `/` are handed to `datetime.date` as year, month and day, from parts 2, 1 and 0 |
| Calendar.VatRate | factura_luz.py:54-59 | `get_iva` succeeds exactly when the date parses. It is 0.1 exactly when the date lies in 2021-06-26..2021-12-31 and 0.21 exactly when it does not. It fails with the parse error otherwise |
| Calendar.VatRateBounds | factura_luz.py:57-59 | every rate `get_iva` returns lies in [0.1, 0.21] |
| Calendar.VatRateOfDate | factura_luz.py:54-59 | on a valid date written `D/M/Y`, the rate is 0.1 inside the inclusive window and 0.21 on every other date |
| Calendar.VatRateFirstReducedDay | factura_luz.py:57-58 | 26/6/2021, the window's first day, gets 0.1 |
| Calendar.VatRateLastReducedDay | factura_luz.py:57-58 | 31/12/2021, the window's last day, gets 0.1 |
| Calendar.VatRateDayBeforeWindow | factura_luz.py:57-59 | 25/6/2021 gets 0.21 |
| Calendar.VatRateDayAfterWindow | factura_luz.py:57-59 | 1/1/2022 gets 0.21 |
| Calendar.VatRateEarlyYear | factura_luz.py:56-59 | a date before 2021, such as a two-digit year, gets 0.21 |
| Calendar.VatRateIsoText | factura_luz.py:55-56 | an ISO `Y-M-D` string raises IndexError |
| Calendar.VatRateBadMonth | factura_luz.py:56 | month 13 raises ValueError from `datetime.date` |
| Calendar.VatRateHugeYear | factura_luz.py:56 | a year of 3000000000 raises OverflowError from `datetime.date` |
| Calendar.VatRateBadNumber | factura_luz.py:56 | a part that is not a number raises ValueError from `int()` |
| Calendar.DaysBeforeDecember | factura_luz.py:44 | the months before December hold 334 days, 335 in a leap year |
| Calendar.YearDays | factura_luz.py:43-44 | `year_days(y)` is 366 in a leap year and 365 otherwise for years 1..9999, raises ValueError outside them and OverflowError beyond a C int |
| Tariff.PowerPrice | factura_luz.py:46-52 | `get_power_price` is the yearly rate of the billed powers times days/365, with the valley power defaulting to the peak power, so it is zero for zero days |
| Tariff.PowerPriceDefaultValley | factura_luz.py:50-51 | omitting the valley power is the same as passing the peak power |
| Tariff.Distribute | factura_luz.py:52 | scaling by days/365 distributes over a sum of day counts |
| Tariff.PowerPriceAdditive | factura_luz.py:52 | billing two spans separately costs the same as billing them together |
| Tariff.ScaleMonotone | factura_luz.py:52 | a non-negative rate scaled by more days gives no less |
| Tariff.PowerPriceMonotone | factura_luz.py:52 | with non-negative powers the term is non-negative and does not decrease with the number of days |
| Prices.DateKey | factura_luz.py:33-35 | the archive key of a date without `-` splits on `-` into the date's three parts in reverse order |
| Prices.DateKeyOfParts | factura_luz.py:33-35 | the archive key of `d/m/y` is `y-m-d` |
| Prices.DateKeyInjective | factura_luz.py:35-37 | distinct dates without `-` get distinct archive keys |
| Prices.HourKey | factura_luz.py:39-40 | the key exists exactly when the label has a `-` followed by an integer, and `int()` reads that same integer back from the key; IndexError exactly when there is no `-` |
| Prices.HourKeyDigits | factura_luz.py:39-40 | the key of `H1-H2` is the value of H2 written back in plain decimal |
| Prices.HourKeyFirstHour | factura_luz.py:39-40 | "00-01" is keyed "1" |
| Prices.HourKeyLastHour | factura_luz.py:39-40 | "23-24" is keyed "24" |
| Prices.HourKeyNoDash | factura_luz.py:39-40 | a label without `-` raises IndexError |
| Prices.EntryPrice | factura_luz.py:40 | the price exists exactly when the PCB, commas read as points, is a number; it is that number per MWh as a price per kWh, and non-negative without a minus sign |
| Prices.EntryPriceDecimalComma | factura_luz.py:40 | a PCB written `W,F` per MWh becomes W.F / 1000 per kWh |
| Prices.CollectError | factura_luz.py:38-40 | collecting outcomes succeeds exactly when every outcome does, and otherwise fails with the first error |
| Prices.CollectPrefixError | factura_luz.py:38-40 | once a prefix of the entries raises, the whole loop raises that error |
| Prices.UpdatedKeys | factura_luz.py:37-40 | the hour table holds the key of every entry and no other key |
| Prices.UpdatedLastWins | factura_luz.py:40 | a key's price is that of the last entry with that key |
| Prices.CollectUpdated | factura_luz.py:37-40 | collected outcomes are the empty dictionary updated with their pairs in order |
| Prices.HourTableOf | factura_luz.py:37-40 | a date's hour table is built exactly when every entry parses, and otherwise fails with the first bad entry's error |
| Prices.HourTableOfPairs | factura_luz.py:37-40 | a built hour table is the empty dictionary updated with every entry's pair, in order |
| Prices.BuildHourTable | factura_luz.py:37-40 | the inner loop builds exactly the specified hour table or error |
| Prices.PriceTableOf | factura_luz.py:30-41 | the result has an entry for exactly the dates that split into three parts |
| Prices.PriceTableOfEntries | factura_luz.py:35-40 | each date's entry is the hour table built from its archive document |
| Prices.PriceTableOfInsert | factura_luz.py:32-40 | visiting one more date adds its hour table, or nothing when it lacks three parts |
| Prices.GetPrice | factura_luz.py:30-41 | `get_price` succeeds exactly when every three-part date's table parses, and then returns the specified table. Otherwise it fails with some such date's error |
| Billing.DatesOf | factura_luz.py:67 | the distinct dates: every record's date, and only those |
| Billing.RecordCost | factura_luz.py:73-76 | a record's cost exists exactly when its kWh parse and its date and hour have a price, and is then the hourly price rounded to millionths times the reading; KeyError when only the price is missing; non-negative for a non-negative reading at non-negative prices |
| Billing.CostNonNegative | factura_luz.py:75-76 | a non-negative price rounded to millionths times a non-negative reading is non-negative |
| Billing.CostRounding | factura_luz.py:75-76 | rounding the price to millionths moves the cost of a reading by at most half a millionth per kilowatt-hour |
| Billing.RecordCostRounding | factura_luz.py:73-76 | a record's cost is within half a millionth per kilowatt-hour read of the unrounded price times the reading |
| Billing.SumBy | factura_luz.py:72-76 | the running sum exists exactly when every item's cost does, and otherwise has the first failing item's error |
| Billing.EnergySum | factura_luz.py:72-76 | the energy sum exists exactly when every record has a reading and a price, and otherwise has the first failing record's error |
| Billing.SumByPrefixError | factura_luz.py:72-76 | once a prefix of the records raises, the whole loop raises that error |
| Billing.SumByAppend | factura_luz.py:72-76 | the sum over two runs of records is the sum of their sums |
| Billing.SumByNonNegative | factura_luz.py:72-76 | non-negative costs add up to a non-negative sum |
| Billing.SumCosts | factura_luz.py:69-76 | the first loop computes exactly the specified sum or error |
| Billing.EnergySumNonNegative | factura_luz.py:72-77 | with non-negative prices and readings the energy sum is non-negative |
| Billing.RoundingOnceDiffers | factura_luz.py:76-77 | rounding each cost to cents and adding them differs from rounding the sum once |
| Billing.SumOverRemove | factura_luz.py:94-95 | the sum of the rates does not depend on the order the dates are visited in |
| Billing.SumOverAdd | factura_luz.py:94-95 | visiting one more date adds its rate to the sum |
| Billing.SumRatesOf | factura_luz.py:93-95 | the second loop succeeds exactly when every date's rate does, and then returns their sum. Otherwise it fails with some date's error |
| Billing.SumRatesBounds | factura_luz.py:93-95 | n dates' rates add up to between 0.1·n and 0.21·n |
| Billing.MeanRateBounds | factura_luz.py:96 | a sum between 0.1·n and 0.21·n divided by n lies in [0.1, 0.21] |
| Billing.MeanVatRate | factura_luz.py:93-96 | the rate is the mean of the per-date rates and lies in [0.1, 0.21]. There is ZeroDivisionError without dates, and a date that fails to parse gives its error |
| Billing.PowerTerm | factura_luz.py:80 | `price_kw` is non-negative whole cents within half a cent of the power term for 4.6 kW over the billed days |
| Billing.SocialDiscount | factura_luz.py:82 | `descuento_bono` is whole cents within half a cent of 25% of power plus energy |
| Billing.ElectricityTax | factura_luz.py:87 | `imp_ele` is whole cents within half a cent of 5.11269632% of the subtotal |
| Billing.MeterRental | factura_luz.py:89 | `alq_contador` is whole cents within half a cent of 9.72 × days / 365 |
| Billing.VatAmount | factura_luz.py:97 | `iva_valor` is whole cents within half a cent of rate × total |
| Billing.MakeInvoice | factura_luz.py:77-99 | every line is its own rounding: energy is the raw sum to the cent, then the power term, the discount on power plus energy, the subtotal with the discount always subtracted, the tax on the subtotal, the meter rental, the total as subtotal plus tax plus rental (whole cents, not rounded again), the VAT on the total at the given rate, and the grand total as the total plus its VAT, also whole cents |
| Billing.InvoiceDiscount | factura_luz.py:82-85 | with a non-negative energy sum, the discount is non-negative and within half a cent of 25% of power plus energy |
| Billing.BillSpec | factura_luz.py:67-99 | without records there is no bill (the mean divides by zero), and a bill's VAT rate lies in [0.1, 0.21] |
| Billing.BillSpecNone | factura_luz.py:67-96 | there is no bill when the price tables, the energy loop, the VAT loop or the division raises |
| Billing.Bill | factura_luz.py:67-99 | the computation succeeds exactly when the specification gives a bill, and then returns that bill. A failing energy loop reports its error |
| Billing.BillMalformedDate | factura_luz.py:33-37 | a record whose date lacks three `/` parts has no price, so there is no bill |
| Billing.BillLines | factura_luz.py:77-96 | the energy line is the energy sum rounded once. Power and meter rental depend only on the number of distinct dates. The VAT rate is the mean of the per-date rates |
| Billing.DatesOfRepeat | factura_luz.py:67 | a record on a date already present adds no billed day |
| Billing.BillSameDates | factura_luz.py:67-96 | two sets of readings over the same dates are billed the same power term, meter rental and VAT rate |

## Left out

- `get_esios` (`factura_luz.py:17-28`) is left out: the cache directory, the JSON cache files and the HTTP request. The decoded archive documents are an input, `Prices.Archive`. A document without a `PVPC` list is an absent key, like the `.get('PVPC', [])` default.
- JSON decoding and the `requests` library are foreign code. The PVPC entries arrive as already-decoded `Hora`/`PCB` strings.
- Opening and reading the CSV file, the header skip, the re-read after `f.seek(0)` and the module-level call are left out. Records arrive already split into date, hour and kWh fields, so the IndexError of a short CSV row is not modelled.
- Every `print` is left out, including the `int(round(iva*100, 0))` percentage shown next to the VAT.
- Binary floating point is left out. Amounts are exact reals, `/1e3` is an exact division by 1000, and `round` rounds the exact decimal value half to even. Python rounds the binary double, which can differ on values that are not exactly representable.
- Text.ParseInt: models `int()` as an optional sign and ASCII digits. Surrounding whitespace, `_` separators and non-ASCII digits are not accepted.
- Text.ParseReal: models `float()` as an optional sign, digits and at most one `.`. Exponents, `inf`/`nan`, whitespace, `_` and non-ASCII digits are not accepted.
- Iterating over a set of dates visits them in an unspecified order. When several dates fail, Prices.GetPrice, Billing.SumRatesOf and Billing.MeanVatRate state only that the error is some failing date's.
- Billing.Bill: states the error only when the energy loop fails. The other failures are stated by Prices.GetPrice and Billing.MeanVatRate.
